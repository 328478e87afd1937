/**
 * OperationsService.generateRelationships: the model is asked about every
 * unordered pair of members of a collection, in the order of a nested
 * i < j loop. A reply that contains the literal text
 * `"hasRelationship": true` affirms the pair: a relationship from the
 * earlier member's entity to the later one's is saved, then a summary of
 * that relationship holding the raw reply. Any exception inside one pair is
 * caught and the loop goes on; only pairs that finished count as processed.
 */
module OperationsPairs {
  import opened Wrappers
  import opened Text
  import opened Records
  import opened Persistence
  import opened AiService
  import opened ModelService
  import opened Operations
  import Seqs

  datatype GenerateRelationshipsResult = GenerateRelationshipsResult(
    relationshipCount: int,
    relationshipIds: seq<int>,
    summaryIds: seq<int>,
    entityPairsProcessed: int)

  /**
   * One pair as it was evaluated: its indices and members, the request
   * sent, the reply's text (None when the provider threw or returned no
   * text), the relationship type picked, the ids the two tables would give
   * their next rows when the pair began (the ids a relationship and a
   * summary saved for this pair receive), the rows saved, with those ids,
   * and whether the pair finished without an exception.
   */
  datatype PairOutcome = PairOutcome(
    pair: (int, int),
    source: Relationship,
    target: Relationship,
    request: ChatRequest,
    response: Option<string>,
    relationshipType: string,
    relationshipAttempt: int,
    summaryAttempt: int,
    relationship: Option<Relationship>,
    summary: Option<Summary>,
    processed: bool)

  /** "AI-Generated relationship between T1 n1 and T2 n2" */
  function PairName(source: Relationship, target: Relationship): string
  {
    "AI-Generated relationship between " + Str(source.sourceType) + " " + IntToString(source.sourceId)
    + " and " + Str(target.sourceType) + " " + IntToString(target.sourceId)
  }

  /** The relationship an affirmed pair saves: from the earlier member's entity to the later one's. */
  function PairRelationshipDraft(source: Relationship, target: Relationship, relationshipType: string): Relationship
  {
    Relationship(0, relationshipType, Some(PairName(source, target)), source.sourceType, source.sourceId,
      target.sourceType, target.sourceId, None)
  }

  /** The summary of a saved relationship: "Analysis of relationship n", holding the raw reply. */
  function AnalysisDraft(relationshipId: int, content: Option<string>, config: ModelConfiguration): Summary
  {
    Summary(0, Some("Analysis of relationship " + IntToString(relationshipId)), Some("relationship"),
      Some(relationshipId), content, None, Some(config), None, None)
  }

  /** The row of an optional save, as a list of zero or one rows. */
  function Saved<R>(row: Option<R>): seq<R>
  {
    if row.Some? then [row.value] else []
  }

  /**
   * What the pairs evaluated so far add up to, in pair order: the pairs,
   * the requests they sent, the ids generateRelationships collects, the
   * number of pairs that finished, and the rows they wrote.
   */
  datatype PairTally = PairTally(
    pairs: seq<(int, int)>,
    requests: seq<ChatRequest>,
    relationshipIds: seq<int>,
    summaryIds: seq<int>,
    processed: nat,
    relationshipRows: seq<Relationship>,
    summaryRows: seq<Summary>)

  const NoPairs := PairTally([], [], [], [], 0, [], [])

  /** The tally after one more pair. */
  function AddPair(t: PairTally, o: PairOutcome): PairTally
  {
    PairTally(t.pairs + [o.pair], t.requests + [o.request],
      t.relationshipIds + (if o.relationship.Some? then [o.relationship.value.id] else []),
      t.summaryIds + (if o.summary.Some? then [o.summary.value.id] else []),
      t.processed + (if o.processed then 1 else 0),
      t.relationshipRows + Saved(o.relationship), t.summaryRows + Saved(o.summary))
  }

  /** The tally of a sequence of pairs, folded from the first. */
  function Tally(outcomes: seq<PairOutcome>): (t: PairTally)
    ensures |t.pairs| == |t.requests| == |outcomes|
  {
    if outcomes == [] then NoPairs
    else AddPair(Tally(outcomes[..|outcomes| - 1]), outcomes[|outcomes| - 1])
  }

  /** The result the outcomes fold into. */
  function PairsResultOf(outcomes: seq<PairOutcome>): GenerateRelationshipsResult
  {
    var t := Tally(outcomes);
    GenerateRelationshipsResult(|t.relationshipIds|, t.relationshipIds, t.summaryIds, t.processed)
  }

  /**
   * One pair evaluation, given the provider's reply to its request: the
   * members are those at the pair's indices, earlier first; the request
   * carries the pair system prompt and the two entity infos. A pair saves a
   * relationship only for an affirming reply and a non-empty type list,
   * with the type extractRelationshipType picks, from the earlier member's
   * entity to the later one's; a summary of it, holding the reply, only
   * after it; and the pair finishes exactly when there was a reply text
   * that either does not affirm or led to both saves.
   */
  ghost predicate PairFits(o: PairOutcome, members: seq<Relationship>, systemPrompt: string, types: seq<string>,
                           config: ModelConfiguration, relationshipRejects: Relationship -> Option<Exception>,
                           summaryRejects: Summary -> Option<Exception>, reply: Reply)
  {
    && 0 <= o.pair.0 < o.pair.1 < |members|
    && o.source == members[o.pair.0] && o.target == members[o.pair.1]
    && o.request.systemPrompt == Some(systemPrompt)
    && o.request.userPrompt == PairPrompt(MemberInfo(o.source), MemberInfo(o.target))
    && o.response == (if reply.Replied? then Some(reply.text) else None)
    && ResponseHandled(o.source, o.target, o.response, types, config, relationshipRejects, summaryRejects,
         o.relationshipAttempt, o.summaryAttempt, o.relationshipType, o.relationship, o.summary, o.processed)
  }

  /**
   * What the pair loop does with one response. An affirming response with a
   * type saves the relationship from source to target under the id
   * `relationshipAttempt`, exactly when the relationship store accepts that
   * row; then, exactly when the summary store accepts it, the analysis
   * summary holding the response under the id `summaryAttempt`. The pair
   * counts as processed when the response was read and either did not
   * affirm or both rows were saved.
   */
  ghost predicate ResponseHandled(source: Relationship, target: Relationship, response: Option<string>,
                                  types: seq<string>, config: ModelConfiguration,
                                  relationshipRejects: Relationship -> Option<Exception>,
                                  summaryRejects: Summary -> Option<Exception>,
                                  relationshipAttempt: int, summaryAttempt: int, relationshipType: string,
                                  relationship: Option<Relationship>, summary: Option<Summary>, processed: bool)
  {
    && (relationship.Some? <==>
          && response.Some? && Affirms(response.value)
          && RelationshipTypeIn(response.value, types).Ok?
          && relationshipRejects(RelationshipWithId(PairRelationshipDraft(source, target,
               RelationshipTypeIn(response.value, types).value), relationshipAttempt)).None?)
    && (relationship.Some? ==>
          && RelationshipTypeIn(response.value, types) == Ok(relationshipType)
          && relationship.value == RelationshipWithId(PairRelationshipDraft(source, target, relationshipType),
               relationshipAttempt))
    && (summary.Some? <==>
          && relationship.Some?
          && summaryRejects(SummaryWithId(AnalysisDraft(relationshipAttempt, response, config), summaryAttempt)).None?)
    && (summary.Some? ==>
          summary.value == SummaryWithId(AnalysisDraft(relationshipAttempt, response, config), summaryAttempt))
    && processed == (response.Some? && (!Affirms(response.value) || summary.Some?))
  }

  /**
   * `fits` holds of every pair evaluation PairFits accepts. The loops carry
   * the evaluations through `fits` so that their proofs need not look
   * inside PairFits.
   */
  ghost predicate FitsAtLeast(fits: (PairOutcome, Reply) -> bool, members: seq<Relationship>, systemPrompt: string,
                              types: seq<string>, config: ModelConfiguration,
                              relationshipRejects: Relationship -> Option<Exception>,
                              summaryRejects: Summary -> Option<Exception>)
  {
    forall o, reply {:trigger PairFits(o, members, systemPrompt, types, config, relationshipRejects, summaryRejects, reply)} ::
      PairFits(o, members, systemPrompt, types, config, relationshipRejects, summaryRejects, reply) ==> fits(o, reply)
  }

  /** PairFits for the members, the system prompt, the types, the configuration and the stores of one call. */
  ghost function PairFitsFor(members: seq<Relationship>, systemPrompt: string, types: seq<string>,
                             config: ModelConfiguration, relationshipRejects: Relationship -> Option<Exception>,
                             summaryRejects: Summary -> Option<Exception>): (PairOutcome, Reply) -> bool
  {
    (o: PairOutcome, reply: Reply) => PairFits(o, members, systemPrompt, types, config, relationshipRejects,
      summaryRejects, reply)
  }

  /** Each pair was evaluated as `fits` says, given the reply to request number base + k. */
  ghost predicate Answered(outcomes: seq<PairOutcome>, fits: (PairOutcome, Reply) -> bool,
                           respond: (nat, ChatRequest) -> Reply, base: nat)
  {
    outcomes == []
    || (&& Answered(outcomes[..|outcomes| - 1], fits, respond, base)
        && var o := outcomes[|outcomes| - 1];
        fits(o, respond(base + |outcomes| - 1, o.request)))
  }

  /** Answered, pair by pair. */
  lemma {:induction false} AnsweredAt(outcomes: seq<PairOutcome>, fits: (PairOutcome, Reply) -> bool,
                                      respond: (nat, ChatRequest) -> Reply, base: nat, k: int)
    requires Answered(outcomes, fits, respond, base)
    requires 0 <= k < |outcomes|
    ensures fits(outcomes[k], respond(base + k, outcomes[k].request))
  {
    if k < |outcomes| - 1 {
      AnsweredAt(outcomes[..|outcomes| - 1], fits, respond, base, k);
    }
  }

  /**
   * The state after the pairs `outcomes`, tallied as `t`: the requests
   * sent, each answered as `fits` says, and the rows written, and nothing
   * else.
   */
  ghost predicate PairsSoFar(fits: (PairOutcome, Reply) -> bool, respond: (nat, ChatRequest) -> Reply,
                             requests0: seq<ChatRequest>, requests: seq<ChatRequest>,
                             relationships0: seq<Relationship>, relationships: seq<Relationship>,
                             summaries0: seq<Summary>, summaries: seq<Summary>,
                             t: PairTally, outcomes: seq<PairOutcome>)
  {
    && Tally(outcomes) == t
    && requests == requests0 + t.requests
    && relationships == relationships0 + t.relationshipRows
    && summaries == summaries0 + t.summaryRows
    && Answered(outcomes, fits, respond, |requests0|)
  }

  /**
   * generateRelationships: an unresolved configuration fails the call
   * before any pair; otherwise every pair (i, j), i < j, of the members is
   * evaluated once, in loop order, as PairFits says, and the result reports
   * the saved ids and the number of pairs that finished.
   */
  ghost predicate RelationshipsGenerated(members: seq<Relationship>, types: seq<string>, configId: Option<int>,
                                         configs: map<int, ModelConfiguration>, respond: (nat, ChatRequest) -> Reply,
                                         relationshipRejects: Relationship -> Option<Exception>,
                                         summaryRejects: Summary -> Option<Exception>,
                                         requests0: seq<ChatRequest>, requests: seq<ChatRequest>,
                                         relationships0: seq<Relationship>, relationships: seq<Relationship>,
                                         summaries0: seq<Summary>, summaries: seq<Summary>,
                                         outcomes: seq<PairOutcome>, r: Result<GenerateRelationshipsResult>)
  {
    match FindConfigurationById(configs, configId)
    case Err(e) =>
      r == Err(e) && outcomes == [] && requests == requests0
      && relationships == relationships0 && summaries == summaries0
    case Ok(config) =>
      && r == Ok(PairsResultOf(outcomes))
      && Tally(outcomes).pairs == Pairs(|members|)
      && PairsSoFar(PairFitsFor(members, PairSystemPrompt(types), types, config, relationshipRejects, summaryRejects),
           respond, requests0, requests,
           relationships0, relationships, summaries0, summaries, Tally(outcomes), outcomes)
  }

  /** The try block of one pair: the exception it may raise is caught here and leaves the pair unprocessed. */
  method EvaluatePair(pair: (int, int), members: seq<Relationship>, systemPrompt: string, types: seq<string>,
                      ghost fits: (PairOutcome, Reply) -> bool, config: ModelConfiguration,
                      chat: ChatModel, relationships: Repository<Relationship>, summaries: Repository<Summary>)
    returns (relationshipId: Option<int>, summaryId: Option<int>, processed: bool, ghost o: PairOutcome)
    requires 0 <= pair.0 < pair.1 < |members|
    requires FitsAtLeast(fits, members, systemPrompt, types, config, relationships.rejects, summaries.rejects)
    requires relationships.Valid() && relationships.withId == RelationshipWithId
    requires summaries.Valid() && summaries.withId == SummaryWithId
    modifies chat, relationships, summaries
    ensures relationships.Valid() && summaries.Valid()
    ensures o.pair == pair && o.processed == processed
    ensures o.relationshipAttempt == old(relationships.nextId) && o.summaryAttempt == old(summaries.nextId)
    ensures relationshipId == (if o.relationship.Some? then Some(o.relationship.value.id) else None)
    ensures summaryId == (if o.summary.Some? then Some(o.summary.value.id) else None)
    ensures chat.requests == old(chat.requests) + [o.request]
    ensures fits(o, chat.respond(|old(chat.requests)|, o.request))
    ensures relationships.rows == old(relationships.rows) + Saved(o.relationship)
    ensures summaries.rows == old(summaries.rows) + Saved(o.summary)
  {
    var source, target := members[pair.0], members[pair.1];
    var prompt := PairPrompt(MemberInfo(source), MemberInfo(target));
    var reply := GenerateResponse(chat, Some(systemPrompt), prompt, Some(config));
    ghost var options := ChatOptionsOf(Some(config));
    ghost var request := ChatRequest(Some(systemPrompt), prompt, options);
    var response := if reply.Ok? then reply.value else None;
    var relationshipType, relationship, summary;
    ghost var relationshipAttempt, summaryAttempt := relationships.nextId, summaries.nextId;
    relationshipType, relationship, summary, processed := HandleResponse(source, target, response, types, config,
      relationships, summaries);
    relationshipId := if relationship.Some? then Some(relationship.value.id) else None;
    summaryId := if summary.Some? then Some(summary.value.id) else None;
    o := PairOutcome(pair, source, target, request, response, relationshipType, relationshipAttempt, summaryAttempt,
      relationship, summary, processed);
    assert PairFits(o, members, systemPrompt, types, config, relationships.rejects, summaries.rejects,
      chat.respond(|old(chat.requests)|, o.request));
  }

  /**
   * The body of the pair loop after the model call. A provider exception,
   * or `response.contains` on a null text, leaves the pair unprocessed and
   * saves nothing.
   */
  method HandleResponse(source: Relationship, target: Relationship, response: Option<string>, types: seq<string>,
                        config: ModelConfiguration, relationships: Repository<Relationship>,
                        summaries: Repository<Summary>)
    returns (relationshipType: string, relationship: Option<Relationship>, summary: Option<Summary>, processed: bool)
    requires relationships.Valid() && relationships.withId == RelationshipWithId
    requires summaries.Valid() && summaries.withId == SummaryWithId
    modifies relationships, summaries
    ensures relationships.Valid() && summaries.Valid()
    ensures ResponseHandled(source, target, response, types, config, relationships.rejects, summaries.rejects,
      old(relationships.nextId), old(summaries.nextId), relationshipType, relationship, summary, processed)
    ensures relationships.rows == old(relationships.rows) + Saved(relationship)
    ensures summaries.rows == old(summaries.rows) + Saved(summary)
  {
    relationshipType, relationship, summary, processed := "", None, None, false;
    if response.Some? {
      var text := response.value;
      if !Affirms(text) {
        processed := true;
      } else {
        var extracted := ExtractRelationshipType(text, types);
        if extracted.Ok? {
          relationshipType := extracted.value;
          relationship, summary := SavePair(source, target, relationshipType, text, config, relationships,
            summaries);
          processed := summary.Some?;
        }
      }
    }
  }

  /**
   * The two saves of an affirmed pair: the relationship, then its summary.
   * Each is saved exactly when its store accepts the row, with the id the
   * store gives next; a refused save raises, and what was saved before it
   * stays saved.
   */
  method SavePair(source: Relationship, target: Relationship, relationshipType: string, response: string,
                  config: ModelConfiguration, relationships: Repository<Relationship>, summaries: Repository<Summary>)
    returns (relationship: Option<Relationship>, summary: Option<Summary>)
    requires relationships.Valid() && relationships.withId == RelationshipWithId
    requires summaries.Valid() && summaries.withId == SummaryWithId
    modifies relationships, summaries
    ensures relationships.Valid() && summaries.Valid()
    ensures var row := RelationshipWithId(PairRelationshipDraft(source, target, relationshipType),
        old(relationships.nextId));
      && (relationship.Some? <==> relationships.rejects(row).None?)
      && (relationship.Some? ==> relationship.value == row)
    ensures var row := SummaryWithId(AnalysisDraft(old(relationships.nextId), Some(response), config),
        old(summaries.nextId));
      && (summary.Some? <==> relationship.Some? && summaries.rejects(row).None?)
      && (summary.Some? ==> summary.value == row)
    ensures relationships.rows == old(relationships.rows) + Saved(relationship)
    ensures summaries.rows == old(summaries.rows) + Saved(summary)
  {
    var draft := PairRelationshipDraft(source, target, relationshipType);
    var savedRelationship := relationships.Insert(draft);
    if savedRelationship.Err? {
      return None, None;
    }
    relationship := Some(draft.(id := savedRelationship.value));
    var analysis := AnalysisDraft(savedRelationship.value, Some(response), config);
    var savedSummary := summaries.Insert(analysis);
    summary := if savedSummary.Ok? then Some(analysis.(id := savedSummary.value)) else None;
  }

  /** One more pair, evaluated as `fits` says, keeps PairsSoFar with the tally advanced by it. */
  lemma PairStep(fits: (PairOutcome, Reply) -> bool, respond: (nat, ChatRequest) -> Reply,
                 requests0: seq<ChatRequest>, requests: seq<ChatRequest>, requests': seq<ChatRequest>,
                 relationships0: seq<Relationship>, relationships: seq<Relationship>, relationships': seq<Relationship>,
                 summaries0: seq<Summary>, summaries: seq<Summary>, summaries': seq<Summary>,
                 t: PairTally, outcomes: seq<PairOutcome>, o: PairOutcome)
    requires PairsSoFar(fits, respond, requests0, requests, relationships0, relationships,
      summaries0, summaries, t, outcomes)
    requires requests' == requests + [o.request]
    requires fits(o, respond(|requests|, o.request))
    requires relationships' == relationships + Saved(o.relationship)
    requires summaries' == summaries + Saved(o.summary)
    ensures PairsSoFar(fits, respond, requests0, requests', relationships0, relationships',
      summaries0, summaries', AddPair(t, o), outcomes + [o])
  {
    assert (outcomes + [o])[..|outcomes|] == outcomes;
  }

  /** The pairs of the tally are `before` followed by (i, i + 1), …, (i, j - 1). */
  predicate RowReached(pairs: seq<(int, int)>, before: seq<(int, int)>, i: int, j: int)
  {
    pairs == before + Row(i, i + 1, j)
  }

  /**
   * The inner loop's bookkeeping after one more pair: the lists and the
   * counter it keeps are the tally's, and the pairs grow by (i, j).
   */
  lemma TallyStep(before: seq<(int, int)>, t: PairTally, o: PairOutcome, i: int, j: int,
                  relationshipIds: seq<int>, summaryIds: seq<int>, pairsProcessed: nat,
                  relationshipId: Option<int>, summaryId: Option<int>, processed: bool)
    requires i + 1 <= j && o.pair == (i, j) && o.processed == processed
    requires RowReached(t.pairs, before, i, j)
    requires relationshipIds == t.relationshipIds && summaryIds == t.summaryIds && pairsProcessed == t.processed
    requires relationshipId == (if o.relationship.Some? then Some(o.relationship.value.id) else None)
    requires summaryId == (if o.summary.Some? then Some(o.summary.value.id) else None)
    ensures var t' := AddPair(t, o);
      && relationshipIds + (if relationshipId.Some? then [relationshipId.value] else []) == t'.relationshipIds
      && summaryIds + (if summaryId.Some? then [summaryId.value] else []) == t'.summaryIds
      && pairsProcessed + (if processed then 1 else 0) == t'.processed
      && RowReached(t'.pairs, before, i, j + 1)
  {
    Seqs.AppendOneAssoc(before, Row(i, i + 1, j), (i, j));
  }

  /** One turn of the inner loop: evaluate pair (i, j) and record what it gave. */
  method NextPair(i: nat, j: nat, members: seq<Relationship>, systemPrompt: string, types: seq<string>,
                  ghost fits: (PairOutcome, Reply) -> bool, config: ModelConfiguration,
                  chat: ChatModel, relationships: Repository<Relationship>, summaries: Repository<Summary>,
                  relationshipIds: seq<int>, summaryIds: seq<int>, pairsProcessed: nat,
                  ghost requests0: seq<ChatRequest>, ghost relationships0: seq<Relationship>,
                  ghost summaries0: seq<Summary>, ghost before: seq<(int, int)>, ghost t: PairTally,
                  ghost outcomes: seq<PairOutcome>)
    returns (relationshipIds': seq<int>, summaryIds': seq<int>, pairsProcessed': nat,
             ghost t': PairTally, ghost outcomes': seq<PairOutcome>)
    requires i < j < |members|
    requires FitsAtLeast(fits, members, systemPrompt, types, config, relationships.rejects, summaries.rejects)
    requires relationships.Valid() && relationships.withId == RelationshipWithId
    requires summaries.Valid() && summaries.withId == SummaryWithId
    requires relationshipIds == t.relationshipIds && summaryIds == t.summaryIds && pairsProcessed == t.processed
    requires RowReached(t.pairs, before, i, j)
    requires PairsSoFar(fits, chat.respond, requests0, chat.requests, relationships0,
      relationships.rows, summaries0, summaries.rows, t, outcomes)
    modifies chat, relationships, summaries
    ensures relationships.Valid() && summaries.Valid()
    ensures relationshipIds' == t'.relationshipIds && summaryIds' == t'.summaryIds && pairsProcessed' == t'.processed
    ensures RowReached(t'.pairs, before, i, j + 1)
    ensures PairsSoFar(fits, chat.respond, requests0, chat.requests, relationships0,
      relationships.rows, summaries0, summaries.rows, t', outcomes')
  {
    ghost var requestsBefore, relationshipsBefore, summariesBefore := chat.requests, relationships.rows, summaries.rows;
    var relationshipId, summaryId, processed, o := EvaluatePair((i, j), members, systemPrompt, types, fits, config,
      chat, relationships, summaries);
    PairStep(fits, chat.respond, requests0, requestsBefore, chat.requests, relationships0,
      relationshipsBefore, relationships.rows, summaries0, summariesBefore, summaries.rows, t, outcomes, o);
    TallyStep(before, t, o, i, j, relationshipIds, summaryIds, pairsProcessed, relationshipId, summaryId, processed);
    relationshipIds' := relationshipIds + if relationshipId.Some? then [relationshipId.value] else [];
    summaryIds' := summaryIds + if summaryId.Some? then [summaryId.value] else [];
    pairsProcessed' := pairsProcessed + if processed then 1 else 0;
    t', outcomes' := AddPair(t, o), outcomes + [o];
  }

  /** The inner loop of generateRelationships: the pairs (i, j) for j = i + 1, …, n - 1. */
  method RunRow(i: nat, members: seq<Relationship>, systemPrompt: string, types: seq<string>,
                ghost fits: (PairOutcome, Reply) -> bool, config: ModelConfiguration,
                chat: ChatModel, relationships: Repository<Relationship>, summaries: Repository<Summary>,
                relationshipIds0: seq<int>, summaryIds0: seq<int>, pairsProcessed0: nat,
                ghost requests0: seq<ChatRequest>, ghost relationships0: seq<Relationship>,
                ghost summaries0: seq<Summary>, ghost t0: PairTally, ghost outcomes0: seq<PairOutcome>)
    returns (relationshipIds: seq<int>, summaryIds: seq<int>, pairsProcessed: nat,
             ghost t: PairTally, ghost outcomes: seq<PairOutcome>)
    requires i < |members|
    requires FitsAtLeast(fits, members, systemPrompt, types, config, relationships.rejects, summaries.rejects)
    requires relationships.Valid() && relationships.withId == RelationshipWithId
    requires summaries.Valid() && summaries.withId == SummaryWithId
    requires relationshipIds0 == t0.relationshipIds && summaryIds0 == t0.summaryIds && pairsProcessed0 == t0.processed
    requires PairsSoFar(fits, chat.respond, requests0, chat.requests, relationships0,
      relationships.rows, summaries0, summaries.rows, t0, outcomes0)
    modifies chat, relationships, summaries
    ensures relationships.Valid() && summaries.Valid()
    ensures relationshipIds == t.relationshipIds && summaryIds == t.summaryIds && pairsProcessed == t.processed
    ensures t.pairs == t0.pairs + Row(i, i + 1, |members|)
    ensures PairsSoFar(fits, chat.respond, requests0, chat.requests, relationships0,
      relationships.rows, summaries0, summaries.rows, t, outcomes)
  {
    relationshipIds, summaryIds, pairsProcessed, t, outcomes := relationshipIds0, summaryIds0, pairsProcessed0, t0, outcomes0;
    var j := i + 1;
    while j < |members|
      invariant i + 1 <= j <= |members|
      invariant relationships.Valid() && summaries.Valid()
      invariant relationshipIds == t.relationshipIds && summaryIds == t.summaryIds && pairsProcessed == t.processed
      invariant RowReached(t.pairs, t0.pairs, i, j)
      invariant PairsSoFar(fits, chat.respond, requests0, chat.requests, relationships0,
        relationships.rows, summaries0, summaries.rows, t, outcomes)
    {
      relationshipIds, summaryIds, pairsProcessed, t, outcomes := NextPair(i, j, members, systemPrompt, types, fits,
        config, chat, relationships, summaries, relationshipIds, summaryIds, pairsProcessed, requests0,
        relationships0, summaries0, t0.pairs, t, outcomes);
      j := j + 1;
    }
  }

  /** The outer loop of generateRelationships: one row of pairs per member. */
  method RunPairs(members: seq<Relationship>, systemPrompt: string, types: seq<string>,
                  ghost fits: (PairOutcome, Reply) -> bool, config: ModelConfiguration,
                  chat: ChatModel, relationships: Repository<Relationship>, summaries: Repository<Summary>)
    returns (relationshipIds: seq<int>, summaryIds: seq<int>, pairsProcessed: nat, ghost outcomes: seq<PairOutcome>)
    requires FitsAtLeast(fits, members, systemPrompt, types, config, relationships.rejects, summaries.rejects)
    requires relationships.Valid() && relationships.withId == RelationshipWithId
    requires summaries.Valid() && summaries.withId == SummaryWithId
    modifies chat, relationships, summaries
    ensures relationships.Valid() && summaries.Valid()
    ensures var t := Tally(outcomes);
      && relationshipIds == t.relationshipIds && summaryIds == t.summaryIds && pairsProcessed == t.processed
      && t.pairs == Pairs(|members|)
      && PairsSoFar(fits, chat.respond, old(chat.requests), chat.requests, old(relationships.rows),
           relationships.rows, old(summaries.rows), summaries.rows, t, outcomes)
  {
    relationshipIds, summaryIds, pairsProcessed, outcomes := [], [], 0, [];
    ghost var t := NoPairs;
    var i := 0;
    while i < |members|
      invariant i <= |members|
      invariant relationships.Valid() && summaries.Valid()
      invariant relationshipIds == t.relationshipIds && summaryIds == t.summaryIds && pairsProcessed == t.processed
      invariant t.pairs == PairsBefore(i, |members|)
      invariant PairsSoFar(fits, chat.respond, old(chat.requests), chat.requests,
        old(relationships.rows), relationships.rows, old(summaries.rows), summaries.rows, t, outcomes)
    {
      relationshipIds, summaryIds, pairsProcessed, t, outcomes := RunRow(i, members, systemPrompt, types, fits, config,
        chat, relationships, summaries, relationshipIds, summaryIds, pairsProcessed, old(chat.requests),
        old(relationships.rows), old(summaries.rows), t, outcomes);
      i := i + 1;
    }
  }

  /**
   * generateRelationships. The members are read from the relationship
   * table before anything is written; the configuration is resolved and the
   * system prompt built once, before the first pair.
   */
  method GenerateRelationships(configId: Option<int>, collectionId: int, types: seq<string>,
                               configs: map<int, ModelConfiguration>, chat: ChatModel,
                               relationships: Repository<Relationship>, summaries: Repository<Summary>)
    returns (r: Result<GenerateRelationshipsResult>, ghost outcomes: seq<PairOutcome>)
    requires relationships.Valid() && relationships.withId == RelationshipWithId
    requires summaries.Valid() && summaries.withId == SummaryWithId
    modifies chat, relationships, summaries
    ensures relationships.Valid() && summaries.Valid()
    ensures RelationshipsGenerated(CollectionMembers(old(relationships.rows), collectionId), types, configId, configs,
      chat.respond, relationships.rejects, summaries.rejects, old(chat.requests), chat.requests,
      old(relationships.rows), relationships.rows,
      old(summaries.rows), summaries.rows, outcomes, r)
  {
    var members := CollectionMembers(relationships.rows, collectionId);
    var found := FindConfigurationById(configs, configId);
    if found.Err? {
      return Err(found.error), [];
    }
    var systemPrompt := PairSystemPrompt(types);
    ghost var fits := PairFitsFor(members, systemPrompt, types, found.value, relationships.rejects, summaries.rejects);
    var relationshipIds, summaryIds, pairsProcessed;
    relationshipIds, summaryIds, pairsProcessed, outcomes := RunPairs(members, systemPrompt, types, fits, found.value,
      chat, relationships, summaries);
    r := Ok(GenerateRelationshipsResult(|relationshipIds|, relationshipIds, summaryIds, pairsProcessed));
  }

  // ---------------------------------------------------------------------
  // What generateRelationships promises
  // ---------------------------------------------------------------------

  /** The relationship row links entity `source` to entity `target`. */
  predicate Links(row: Relationship, source: Relationship, target: Relationship)
  {
    && row.sourceType == source.sourceType && row.sourceId == source.sourceId
    && row.targetType == target.sourceType && row.targetId == target.sourceId
  }

  /** The row links the entity of some member to the entity of a later member. */
  ghost predicate LinksLaterMember(row: Relationship, members: seq<Relationship>)
  {
    exists a, b :: 0 <= a < b < |members| && Links(row, members[a], members[b])
  }

  /** The rows one pair saved have the shape PairFits gives them, whatever the reply was. */
  ghost predicate SavesShaped(o: PairOutcome, members: seq<Relationship>)
  {
    && (o.relationship.Some? ==>
          0 <= o.pair.0 < o.pair.1 < |members| && Links(o.relationship.value, members[o.pair.0], members[o.pair.1]))
    && (o.summary.Some? ==>
          && o.relationship.Some?
          && o.summary.value.entityType == Some("relationship")
          && o.summary.value.entityId == Some(o.relationship.value.id))
  }

  /** What the tally reports about the rows it lists. */
  ghost predicate TallyConsistent(t: PairTally, members: seq<Relationship>, n: nat)
  {
    && t.processed <= n
    && |t.relationshipRows| == |t.relationshipIds| && |t.summaryRows| == |t.summaryIds| <= |t.relationshipIds|
    && (forall k :: 0 <= k < |t.relationshipIds| ==> t.relationshipRows[k].id == t.relationshipIds[k])
    && (forall k :: 0 <= k < |t.summaryIds| ==> t.summaryRows[k].id == t.summaryIds[k])
    && (forall k :: 0 <= k < |t.relationshipRows| ==> LinksLaterMember(t.relationshipRows[k], members))
    && (forall k :: 0 <= k < |t.summaryRows| ==>
          && t.summaryRows[k].entityType == Some("relationship")
          && t.summaryRows[k].entityId.Some? && t.summaryRows[k].entityId.value in t.relationshipIds)
  }

  /**
   * The tally of pairs whose saves are shaped as PairFits says: ids listed
   * are the ids of the rows written, in the same order; at most one summary
   * per relationship; each relationship goes from an earlier member's
   * entity to a later one's; each summary is about a listed relationship;
   * and no more pairs finish than were evaluated.
   */
  lemma {:induction false} TallyIsConsistent(outcomes: seq<PairOutcome>, members: seq<Relationship>)
    requires forall k :: 0 <= k < |outcomes| ==> SavesShaped(outcomes[k], members)
    ensures TallyConsistent(Tally(outcomes), members, |outcomes|)
  {
    if outcomes != [] {
      var prefix, o := outcomes[..|outcomes| - 1], outcomes[|outcomes| - 1];
      assert forall k :: 0 <= k < |prefix| ==> prefix[k] == outcomes[k];
      TallyIsConsistent(prefix, members);
      var t, t' := Tally(prefix), Tally(outcomes);
      assert SavesShaped(o, members);
      assert t' == AddPair(t, o);
      forall k | 0 <= k < |t'.relationshipRows|
        ensures LinksLaterMember(t'.relationshipRows[k], members)
      {
        if k < |t.relationshipRows| {
          assert t'.relationshipRows[k] == t.relationshipRows[k];
        } else {
          var a, b := o.pair.0, o.pair.1;
          assert t'.relationshipRows[k] == o.relationship.value;
          assert 0 <= a < b < |members| && Links(t'.relationshipRows[k], members[a], members[b]);
        }
      }
      forall k | 0 <= k < |t'.summaryRows|
        ensures t'.summaryRows[k].entityId.Some? && t'.summaryRows[k].entityId.value in t'.relationshipIds
      {
        if k < |t.summaryRows| {
          assert t'.summaryRows[k] == t.summaryRows[k];
          assert t.relationshipIds <= t'.relationshipIds;
        } else {
          assert t'.summaryRows[k] == o.summary.value;
          assert t'.relationshipIds[|t'.relationshipIds| - 1] == o.relationship.value.id;
        }
      }
    }
  }

  /** PairFits gives the saves their shape. */
  lemma FitsShapesSaves(o: PairOutcome, members: seq<Relationship>, systemPrompt: string, types: seq<string>,
                        config: ModelConfiguration, relationshipRejects: Relationship -> Option<Exception>,
                        summaryRejects: Summary -> Option<Exception>, reply: Reply)
    requires PairFits(o, members, systemPrompt, types, config, relationshipRejects, summaryRejects, reply)
    ensures SavesShaped(o, members)
  {
  }

  /** Every pair answered as PairFits says saved rows of the right shape. */
  lemma AnsweredShapesSaves(outcomes: seq<PairOutcome>, members: seq<Relationship>, systemPrompt: string,
                            types: seq<string>, config: ModelConfiguration,
                            relationshipRejects: Relationship -> Option<Exception>,
                            summaryRejects: Summary -> Option<Exception>, respond: (nat, ChatRequest) -> Reply,
                            base: nat)
    requires Answered(outcomes, PairFitsFor(members, systemPrompt, types, config, relationshipRejects, summaryRejects),
      respond, base)
    ensures forall k :: 0 <= k < |outcomes| ==> SavesShaped(outcomes[k], members)
  {
    var fits := PairFitsFor(members, systemPrompt, types, config, relationshipRejects, summaryRejects);
    forall k | 0 <= k < |outcomes| ensures SavesShaped(outcomes[k], members) {
      AnsweredAt(outcomes, fits, respond, base, k);
      FitsShapesSaves(outcomes[k], members, systemPrompt, types, config, relationshipRejects, summaryRejects,
        respond(base + k, outcomes[k].request));
    }
  }

  /**
   * What a generateRelationships call leaves behind. An unresolved
   * configuration changes nothing and sends nothing. Otherwise one request
   * per pair, n·(n−1)/2 of them for n members; the relationship count is
   * the number of relationship ids, and there are at most as many summary
   * ids; at most every pair is processed; the tables grew by exactly the
   * rows whose ids are reported, in order; every new relationship links an
   * earlier member's entity to a later member's; every new summary is about
   * one of the new relationships.
   */
  lemma {:induction false} GeneratedRelationshipsAccounting(
    members: seq<Relationship>, types: seq<string>, configId: Option<int>, configs: map<int, ModelConfiguration>,
    respond: (nat, ChatRequest) -> Reply, relationshipRejects: Relationship -> Option<Exception>,
    summaryRejects: Summary -> Option<Exception>, requests0: seq<ChatRequest>, requests: seq<ChatRequest>,
    relationships0: seq<Relationship>, relationships: seq<Relationship>, summaries0: seq<Summary>,
    summaries: seq<Summary>, outcomes: seq<PairOutcome>, r: Result<GenerateRelationshipsResult>)
    requires RelationshipsGenerated(members, types, configId, configs, respond, relationshipRejects, summaryRejects,
      requests0, requests,
      relationships0, relationships, summaries0, summaries, outcomes, r)
    ensures r.Err? ==> requests == requests0 && relationships == relationships0 && summaries == summaries0
    ensures r.Ok? ==>
      && |requests| == |requests0| + |outcomes|
      && 2 * |outcomes| == |members| * (|members| - 1)
      && r.value.relationshipCount == |r.value.relationshipIds|
      && |r.value.summaryIds| <= r.value.relationshipCount
      && 0 <= r.value.entityPairsProcessed <= |outcomes|
      && |relationships| == |relationships0| + r.value.relationshipCount
      && |summaries| == |summaries0| + |r.value.summaryIds|
      && (forall k :: 0 <= k < r.value.relationshipCount ==>
            && relationships[|relationships0| + k].id == r.value.relationshipIds[k]
            && LinksLaterMember(relationships[|relationships0| + k], members))
      && (forall k :: 0 <= k < |r.value.summaryIds| ==>
            && summaries[|summaries0| + k].id == r.value.summaryIds[k]
            && summaries[|summaries0| + k].entityType == Some("relationship")
            && summaries[|summaries0| + k].entityId.Some?
            && summaries[|summaries0| + k].entityId.value in r.value.relationshipIds)
  {
    match FindConfigurationById(configs, configId)
    case Err(e) =>
    case Ok(config) =>
      var t := Tally(outcomes);
      AnsweredShapesSaves(outcomes, members, PairSystemPrompt(types), types, config, relationshipRejects,
        summaryRejects, respond, |requests0|);
      TallyIsConsistent(outcomes, members);
      PairsEnumeration(|members|);
      forall k | 0 <= k < |t.relationshipRows| ensures relationships[|relationships0| + k] == t.relationshipRows[k] {
      }
      forall k | 0 <= k < |t.summaryRows| ensures summaries[|summaries0| + k] == t.summaryRows[k] {
      }
  }

  /**
   * Pair k of the tally: its pair and request are listed at position k,
   * and the rows it saved, with their ids, are among the tally's rows and
   * ids.
   */
  lemma {:induction false} TallyAt(outcomes: seq<PairOutcome>, k: int)
    requires 0 <= k < |outcomes|
    ensures var t, o := Tally(outcomes), outcomes[k];
      && t.pairs[k] == o.pair && t.requests[k] == o.request
      && (o.relationship.Some? ==> o.relationship.value in t.relationshipRows && o.relationship.value.id in t.relationshipIds)
      && (o.summary.Some? ==> o.summary.value in t.summaryRows && o.summary.value.id in t.summaryIds)
  {
    var prefix := outcomes[..|outcomes| - 1];
    var t, t' := Tally(prefix), Tally(outcomes);
    assert t' == AddPair(t, outcomes[|outcomes| - 1]);
    if k < |outcomes| - 1 {
      TallyAt(prefix, k);
      assert outcomes[k] == prefix[k];
      assert t'.pairs[k] == t.pairs[k] && t'.requests[k] == t.requests[k];
      assert t.relationshipRows <= t'.relationshipRows && t.relationshipIds <= t'.relationshipIds;
      assert t.summaryRows <= t'.summaryRows && t.summaryIds <= t'.summaryIds;
    }
  }

  /**
   * One pair evaluation against the provider's reply: a reply that does not
   * affirm finishes the pair with nothing saved; no reply text, or a
   * provider exception, leaves it unfinished with nothing saved; the
   * relationship is saved exactly when the reply affirms, a type is found
   * and the relationship store accepts the row; and its summary is saved,
   * which finishes the pair, exactly when in addition the summary store
   * accepts its row.
   */
  lemma PairReplyAccounting(o: PairOutcome, members: seq<Relationship>, systemPrompt: string, types: seq<string>,
                            config: ModelConfiguration, relationshipRejects: Relationship -> Option<Exception>,
                            summaryRejects: Summary -> Option<Exception>, reply: Reply)
    requires PairFits(o, members, systemPrompt, types, config, relationshipRejects, summaryRejects, reply)
    ensures reply.Replied? && !Affirms(reply.text) ==> o.processed && o.relationship.None? && o.summary.None?
    ensures !reply.Replied? ==> !o.processed && o.relationship.None? && o.summary.None?
    ensures o.relationship.Some? <==>
      && reply.Replied? && Affirms(reply.text) && RelationshipTypeIn(reply.text, types).Ok?
      && relationshipRejects(RelationshipWithId(PairRelationshipDraft(o.source, o.target,
           RelationshipTypeIn(reply.text, types).value), o.relationshipAttempt)).None?
    ensures o.summary.Some? <==>
      && o.relationship.Some?
      && summaryRejects(SummaryWithId(AnalysisDraft(o.relationshipAttempt, Some(reply.text), config),
           o.summaryAttempt)).None?
    ensures o.summary.Some? ==> o.processed
  {
  }

  /** Pair k of the pairs so far: its pair, its request and its evaluation against the reply to it. */
  lemma {:induction false} SoFarAt(fits: (PairOutcome, Reply) -> bool, respond: (nat, ChatRequest) -> Reply,
                                   requests0: seq<ChatRequest>, requests: seq<ChatRequest>,
                                   relationships0: seq<Relationship>, relationships: seq<Relationship>,
                                   summaries0: seq<Summary>, summaries: seq<Summary>, outcomes: seq<PairOutcome>, k: int)
    requires PairsSoFar(fits, respond, requests0, requests, relationships0, relationships, summaries0, summaries,
      Tally(outcomes), outcomes)
    requires 0 <= k < |outcomes|
    ensures Tally(outcomes).pairs[k] == outcomes[k].pair
    ensures |requests0| + k < |requests| && requests[|requests0| + k] == outcomes[k].request
    ensures fits(outcomes[k], respond(|requests0| + k, outcomes[k].request))
  {
    AnsweredAt(outcomes, fits, respond, |requests0|, k);
    TallyAt(outcomes, k);
  }

  /**
   * Pair k of a generateRelationships call is the k-th pair of the nested
   * loop, sent as request k and evaluated as PairFits says against the
   * reply to it.
   */
  lemma {:induction false} PairAnswered(
    members: seq<Relationship>, types: seq<string>, configId: Option<int>, configs: map<int, ModelConfiguration>,
    respond: (nat, ChatRequest) -> Reply, relationshipRejects: Relationship -> Option<Exception>,
    summaryRejects: Summary -> Option<Exception>, requests0: seq<ChatRequest>, requests: seq<ChatRequest>,
    relationships0: seq<Relationship>, relationships: seq<Relationship>, summaries0: seq<Summary>,
    summaries: seq<Summary>, outcomes: seq<PairOutcome>, r: Result<GenerateRelationshipsResult>, k: int)
    requires RelationshipsGenerated(members, types, configId, configs, respond, relationshipRejects, summaryRejects,
      requests0, requests, relationships0, relationships, summaries0, summaries, outcomes, r)
    requires r.Ok? && 0 <= k < |outcomes|
    ensures FindConfigurationById(configs, configId).Ok?
    ensures var o := outcomes[k];
      && o.pair == Pairs(|members|)[k]
      && |requests0| + k < |requests| && requests[|requests0| + k] == o.request
      && PairFits(o, members, PairSystemPrompt(types), types, FindConfigurationById(configs, configId).value,
           relationshipRejects, summaryRejects, respond(|requests0| + k, o.request))
  {
    var config := FindConfigurationById(configs, configId).value;
    var fits := PairFitsFor(members, PairSystemPrompt(types), types, config, relationshipRejects, summaryRejects);
    SoFarAt(fits, respond, requests0, requests, relationships0, relationships, summaries0, summaries, outcomes, k);
  }

  /**
   * Whatever pair k of a generateRelationships call saved is written to
   * the tables and its id reported in the result.
   */
  lemma {:induction false} PairSavesReported(
    members: seq<Relationship>, types: seq<string>, configId: Option<int>, configs: map<int, ModelConfiguration>,
    respond: (nat, ChatRequest) -> Reply, relationshipRejects: Relationship -> Option<Exception>,
    summaryRejects: Summary -> Option<Exception>, requests0: seq<ChatRequest>, requests: seq<ChatRequest>,
    relationships0: seq<Relationship>, relationships: seq<Relationship>, summaries0: seq<Summary>,
    summaries: seq<Summary>, outcomes: seq<PairOutcome>, r: Result<GenerateRelationshipsResult>, k: int)
    requires RelationshipsGenerated(members, types, configId, configs, respond, relationshipRejects, summaryRejects,
      requests0, requests, relationships0, relationships, summaries0, summaries, outcomes, r)
    requires r.Ok? && 0 <= k < |outcomes|
    ensures var o := outcomes[k];
      && (o.relationship.Some? ==>
            o.relationship.value in relationships[|relationships0|..] && o.relationship.value.id in r.value.relationshipIds)
      && (o.summary.Some? ==>
            o.summary.value in summaries[|summaries0|..] && o.summary.value.id in r.value.summaryIds)
  {
    var t := Tally(outcomes);
    TallyAt(outcomes, k);
    assert relationships == relationships0 + t.relationshipRows && summaries == summaries0 + t.summaryRows;
    assert relationships[|relationships0|..] == t.relationshipRows;
    assert summaries[|summaries0|..] == t.summaryRows;
  }

  /**
   * The accounting of generateRelationships, pair by pair: pair k is saved,
   * counted as processed and reported in the result exactly when the reply
   * to request k affirms it, a type is found and both stores accept their
   * rows; a reply that does not affirm counts the pair with nothing saved.
   */
  lemma {:induction false} PairSavedIffAccepted(
    members: seq<Relationship>, types: seq<string>, configId: Option<int>, configs: map<int, ModelConfiguration>,
    respond: (nat, ChatRequest) -> Reply, relationshipRejects: Relationship -> Option<Exception>,
    summaryRejects: Summary -> Option<Exception>, requests0: seq<ChatRequest>, requests: seq<ChatRequest>,
    relationships0: seq<Relationship>, relationships: seq<Relationship>, summaries0: seq<Summary>,
    summaries: seq<Summary>, outcomes: seq<PairOutcome>, r: Result<GenerateRelationshipsResult>, k: int)
    requires RelationshipsGenerated(members, types, configId, configs, respond, relationshipRejects, summaryRejects,
      requests0, requests, relationships0, relationships, summaries0, summaries, outcomes, r)
    requires r.Ok? && 0 <= k < |outcomes|
    ensures FindConfigurationById(configs, configId).Ok?
    ensures var o, config := outcomes[k], FindConfigurationById(configs, configId).value;
      var reply := respond(|requests0| + k, o.request);
      var accepted :=
        && reply.Replied? && Affirms(reply.text) && RelationshipTypeIn(reply.text, types).Ok?
        && relationshipRejects(RelationshipWithId(PairRelationshipDraft(o.source, o.target,
             RelationshipTypeIn(reply.text, types).value), o.relationshipAttempt)).None?
        && summaryRejects(SummaryWithId(AnalysisDraft(o.relationshipAttempt, Some(reply.text), config),
             o.summaryAttempt)).None?;
      && (accepted ==>
            && o.processed && o.relationship.Some? && o.summary.Some?
            && o.relationship.value in relationships[|relationships0|..]
            && o.relationship.value.id in r.value.relationshipIds
            && o.summary.value in summaries[|summaries0|..] && o.summary.value.id in r.value.summaryIds)
      && (o.summary.Some? ==> accepted)
      && (reply.Replied? && !Affirms(reply.text) ==> o.processed && o.relationship.None? && o.summary.None?)
  {
    PairAnswered(members, types, configId, configs, respond, relationshipRejects, summaryRejects, requests0, requests,
      relationships0, relationships, summaries0, summaries, outcomes, r, k);
    var o, config := outcomes[k], FindConfigurationById(configs, configId).value;
    PairReplyAccounting(o, members, PairSystemPrompt(types), types, config, relationshipRejects, summaryRejects,
      respond(|requests0| + k, o.request));
    PairSavesReported(members, types, configId, configs, respond, relationshipRejects, summaryRejects, requests0,
      requests, relationships0, relationships, summaries0, summaries, outcomes, r, k);
  }
}
