/**
 * OperationsService: the three collection operations. summarizeEach writes
 * one summary per member of a collection, summarizeCollection writes one
 * summary of the whole collection and links it to the collection, and
 * generateRelationships asks the model about every unordered pair of
 * members and records the relationships it affirms.
 *
 * The members of a collection are its 'collection' relationships; a
 * member's entity is the relationship's source (type and id). The per-member
 * tasks of summarizeEach run concurrently in the service and are all joined
 * before counting, so the model runs them in member order.
 */
module Operations {
  import opened Wrappers
  import opened Text
  import opened Records
  import opened Persistence
  import opened AiService
  import opened ModelService
  import ItemEntity
  import Seqs

  // ---------------------------------------------------------------------
  // Prompts and text builders
  // ---------------------------------------------------------------------

  /** The system prompt of summarizeEach (a text block: no indentation, trailing spaces stripped). */
  const EachSystemPrompt: string :=
    "You are analyzing an entity from a collection. Please provide a concise, informative summary\n"
    + "of this entity focusing on its key characteristics, significance, and notable features.\n"
    + "Keep the summary to 2-3 sentences and make it suitable for comparative analysis with other entities.\n"

  /** The system prompt of summarizeCollection. */
  const CollectionSystemPrompt: string :=
    "You are analyzing a collection of entities. Please provide a comprehensive summary of this collection,\n"
    + "including its theme, the types of entities it contains, common patterns or relationships you observe,\n"
    + "and the overall significance or purpose of grouping these entities together.\n"
    + "Focus on synthesis and high-level insights rather than listing individual items.\n"

  /** The system prompt of generateRelationships, before the list of types. */
  const PairSystemHead: string :=
    "You are analyzing the relationship between two entities.\n"
    + "Please assess if there is a meaningful relationship between them from these types: "

  /** The system prompt of generateRelationships, after the list of types. */
  const PairSystemTail: string :=
    "\n\nRespond with JSON in this format:\n{\n"
    + "  \"hasRelationship\": true/false,\n"
    + "  \"relationshipType\": \"one of the provided types or null\",\n"
    + "  \"confidence\": 0.0-1.0,\n"
    + "  \"explanation\": \"brief explanation of the relationship or why none exists\"\n}\n"

  /** The system prompt of generateRelationships: the types are listed joined by ", ". */
  function PairSystemPrompt(types: seq<string>): string
  {
    PairSystemHead + Join(types, ", ") + PairSystemTail
  }

  /** The exact text whose presence in a reply affirms a relationship. */
  const AffirmationMarker: string := "\"hasRelationship\": true"

  /** `response.contains("\"hasRelationship\": true")` */
  predicate Affirms(response: string)
  {
    Contains(response, AffirmationMarker)
  }

  /** buildEntityInfo: "Entity Type: T, ID: n" (a null type prints as "null"). */
  function EntityInfo(entityType: Option<string>, entityId: int): string
  {
    "Entity Type: " + Str(entityType) + ", ID: " + IntToString(entityId)
  }

  /** The user prompt for one pair. */
  function PairPrompt(info1: string, info2: string): string
  {
    "Entity 1: " + info1 + "\nEntity 2: " + info2 + "\n\nAnalyze the relationship between these entities.\n"
  }

  /** The entity a member relationship stands for. */
  function MemberInfo(member: Relationship): string
  {
    EntityInfo(member.sourceType, member.sourceId)
  }

  /**
   * Two members with the same entity type get the same info exactly when
   * they have the same id: the id is the whole rest of the line.
   */
  lemma EntityInfoDeterminesId(entityType: Option<string>, a: int, b: int)
    ensures EntityInfo(entityType, a) == EntityInfo(entityType, b) <==> a == b
  {
    var prefix := "Entity Type: " + Str(entityType) + ", ID: ";
    if EntityInfo(entityType, a) == EntityInfo(entityType, b) {
      assert (prefix + IntToString(a))[|prefix|..] == IntToString(a);
      assert (prefix + IntToString(b))[|prefix|..] == IntToString(b);
      IntToStringInjective(a, b);
    }
  }

  /** `"\"%s\"".formatted(type)` */
  function Quoted(t: string): string
  {
    "\"" + t + "\""
  }

  /** The index of the first type whose quoted form occurs in the reply, or |types| when none does. */
  function FirstQuotedType(response: string, types: seq<string>): (k: nat)
    ensures k <= |types|
    ensures k < |types| ==> Contains(response, Quoted(types[k]))
    ensures forall m :: 0 <= m < k ==> !Contains(response, Quoted(types[m]))
  {
    if types == [] then 0
    else if Contains(response, Quoted(types[0])) then 0
    else
      var rest := FirstQuotedType(response, types[1..]);
      assert forall m :: 1 <= m < 1 + rest ==> types[m] == types[1..][m - 1];
      1 + rest
  }

  /**
   * extractRelationshipType, as a value: the first listed type that occurs
   * in double quotes in the reply, else the first listed type; an empty list
   * fails with IndexOutOfBoundsException.
   */
  function RelationshipTypeIn(response: string, types: seq<string>): (r: Result<string>)
    ensures r.Err? <==> types == []
    ensures r.Err? ==> r.error == IndexOutOfBoundsException
    ensures r.Ok? ==> r.value in types
    ensures r.Ok? && (exists m :: 0 <= m < |types| && Contains(response, Quoted(types[m]))) ==>
      Contains(response, Quoted(r.value))
    ensures r.Ok? && !Contains(response, Quoted(r.value)) ==> r.value == types[0]
  {
    if types == [] then Err(IndexOutOfBoundsException)
    else
      var k := FirstQuotedType(response, types);
      if k < |types| then Ok(types[k]) else Ok(types[0])
  }

  /** extractRelationshipType: scans the types in order and stops at the first quoted one. */
  method ExtractRelationshipType(response: string, types: seq<string>) returns (r: Result<string>)
    ensures r == RelationshipTypeIn(response, types)
  {
    var k := 0;
    while k < |types|
      invariant 0 <= k <= |types|
      invariant forall m :: 0 <= m < k ==> !Contains(response, Quoted(types[m]))
    {
      if Contains(response, Quoted(types[k])) {
        return Ok(types[k]);
      }
      k := k + 1;
    }
    if |types| == 0 {
      return Err(IndexOutOfBoundsException);
    }
    r := Ok(types[0]);
  }

  /** The description line's value: the definition's "description" attribute as text, else "No description". */
  function DescriptionText(definition: Relationship): string
  {
    if definition.attributes.Some? && Has(definition.attributes.value, "description")
    then ItemEntity.AsText(definition.attributes.value.fields["description"])
    else "No description"
  }

  /** The header of the collection context: name, description and member count. */
  function ContextHeader(definition: Relationship, memberCount: nat): string
  {
    "Collection: " + Str(definition.name) + "\n" + "Description: " + DescriptionText(definition) + "\n"
    + "Entities (" + NatToString(memberCount) + "):\n"
  }

  /** The line a member contributes: "- T n". */
  function MemberLine(member: Relationship): string
  {
    "- " + Str(member.sourceType) + " " + IntToString(member.sourceId) + "\n"
  }

  /** The member lines, in member order. */
  function MemberLines(members: seq<Relationship>): string
  {
    if members == [] then "" else MemberLines(members[..|members| - 1]) + MemberLine(members[|members| - 1])
  }

  /** Taking one more member appends its line. */
  lemma MemberLinesSnoc(members: seq<Relationship>, k: nat)
    requires k < |members|
    ensures MemberLines(members[..k + 1]) == MemberLines(members[..k]) + MemberLine(members[k])
  {
    assert members[..k + 1][..k] == members[..k];
  }

  /** buildCollectionContext: the header, then one line per member. */
  method BuildCollectionContext(definition: Relationship, members: seq<Relationship>) returns (context: string)
    ensures context == ContextHeader(definition, |members|) + MemberLines(members)
  {
    context := AppendMemberLines(ContextHeader(definition, |members|), members);
  }

  /** The loop of buildCollectionContext: one line per member, appended in member order. */
  method AppendMemberLines(header: string, members: seq<Relationship>) returns (context: string)
    ensures context == header + MemberLines(members)
  {
    context := header;
    var k := 0;
    while k < |members|
      invariant 0 <= k <= |members|
      invariant context == header + MemberLines(members[..k])
    {
      MemberLinesSnoc(members, k);
      var line := MemberLine(members[k]);
      AppendAssoc(header, MemberLines(members[..k]), line);
      context := context + line;
      k := k + 1;
    }
    assert members[..k] == members;
  }

  /** Every member's line occurs in the member lines. */
  lemma {:induction false} MemberLinesHaveEveryMember(members: seq<Relationship>, k: nat)
    requires k < |members|
    ensures Contains(MemberLines(members), MemberLine(members[k]))
  {
    var init := members[..|members| - 1];
    var last := MemberLine(members[|members| - 1]);
    if k == |members| - 1 {
      ContainsItself(last);
      ContainsInParts(MemberLines(init), last, last);
    } else {
      assert init[k] == members[k];
      MemberLinesHaveEveryMember(init, k);
      ContainsInParts(MemberLines(init), last, MemberLine(members[k]));
    }
  }

  /**
   * The collection context starts with the header (which counts the
   * members) and contains the line of every member.
   */
  lemma CollectionContextShape(definition: Relationship, members: seq<Relationship>)
    ensures StartsWith(ContextHeader(definition, |members|) + MemberLines(members), ContextHeader(definition, |members|))
    ensures forall k :: 0 <= k < |members| ==>
      Contains(ContextHeader(definition, |members|) + MemberLines(members), MemberLine(members[k]))
  {
    var header := ContextHeader(definition, |members|);
    ConcatEnds(header, MemberLines(members));
    forall k | 0 <= k < |members|
      ensures Contains(header + MemberLines(members), MemberLine(members[k]))
    {
      MemberLinesHaveEveryMember(members, k);
      ContainsInParts(header, MemberLines(members), MemberLine(members[k]));
    }
  }

  // ---------------------------------------------------------------------
  // The pairs of generateRelationships
  // ---------------------------------------------------------------------

  /** The pairs (i, lo), …, (i, hi - 1) of one pass of the inner loop, in order. */
  function Row(i: int, lo: int, hi: int): (r: seq<(int, int)>)
    decreases hi - lo
    ensures |r| == if hi <= lo then 0 else hi - lo
  {
    if hi <= lo then [] else Row(i, lo, hi - 1) + [(i, hi - 1)]
  }

  /** The pairs the nested loop visits before its outer index reaches i: rows 0 … i - 1. */
  function PairsBefore(i: nat, n: nat): seq<(int, int)>
  {
    if i == 0 then [] else PairsBefore(i - 1, n) + Row(i - 1, i, n)
  }

  /** Every pair the loop over n members visits, in visiting order. */
  function Pairs(n: nat): seq<(int, int)>
  {
    PairsBefore(n, n)
  }

  /** Pair p comes before pair q in visiting order. */
  predicate Earlier(p: (int, int), q: (int, int))
  {
    p.0 < q.0 || (p.0 == q.0 && p.1 < q.1)
  }

  lemma {:induction false} RowMembers(i: int, lo: int, hi: int)
    ensures forall p :: p in Row(i, lo, hi) <==> p.0 == i && lo <= p.1 < hi
    ensures forall a, b :: 0 <= a < b < |Row(i, lo, hi)| ==> Earlier(Row(i, lo, hi)[a], Row(i, lo, hi)[b])
    decreases hi - lo
  {
    if lo < hi {
      RowMembers(i, lo, hi - 1);
    }
  }

  lemma {:induction false} PairsBeforeMembers(i: nat, n: nat)
    requires i <= n
    ensures forall p :: p in PairsBefore(i, n) <==> 0 <= p.0 < i && p.0 < p.1 < n
  {
    if i > 0 {
      PairsBeforeMembers(i - 1, n);
      RowMembers(i - 1, i, n);
    }
  }

  lemma {:induction false} PairsBeforeOrdered(i: nat, n: nat)
    requires i <= n
    ensures forall a, b :: 0 <= a < b < |PairsBefore(i, n)| ==> Earlier(PairsBefore(i, n)[a], PairsBefore(i, n)[b])
  {
    if i > 0 {
      var before, row := PairsBefore(i - 1, n), Row(i - 1, i, n);
      PairsBeforeOrdered(i - 1, n);
      PairsBeforeMembers(i - 1, n);
      RowMembers(i - 1, i, n);
      var all := before + row;
      forall a, b | 0 <= a < b < |all| ensures Earlier(all[a], all[b]) {
        if b < |before| {
          assert all[a] == before[a] && all[b] == before[b];
        } else if a >= |before| {
          assert all[a] == row[a - |before|] && all[b] == row[b - |before|];
        } else {
          assert all[a] == before[a] && before[a] in before;
          assert all[b] == row[b - |before|] && row[b - |before|] in row;
        }
      }
    }
  }

  lemma {:induction false} PairsBeforeLength(i: nat, n: nat)
    requires i <= n
    ensures 2 * |PairsBefore(i, n)| == i * (2 * n - i - 1)
  {
    if i > 0 {
      PairsBeforeLength(i - 1, n);
      assert |PairsBefore(i, n)| == |PairsBefore(i - 1, n)| + (n - i);
      assert (i - 1) * (2 * n - (i - 1) - 1) + 2 * (n - i) == i * (2 * n - i - 1);
    }
  }

  /**
   * The nested loop visits exactly the pairs (i, j) with i < j < n, each
   * once, in order: n·(n−1)/2 pairs, none pairing a member with itself.
   */
  lemma PairsEnumeration(n: nat)
    ensures forall p :: p in Pairs(n) <==> 0 <= p.0 < p.1 < n
    ensures Seqs.Distinct(Pairs(n))
    ensures 2 * |Pairs(n)| == n * (n - 1)
  {
    PairsBeforeMembers(n, n);
    PairsBeforeOrdered(n, n);
    PairsBeforeLength(n, n);
    var ps := Pairs(n);
    forall a, b | 0 <= a < b < |ps| ensures ps[a] != ps[b] {
      assert Earlier(ps[a], ps[b]);
    }
  }

  // ---------------------------------------------------------------------
  // summarizeEachInCollection
  // ---------------------------------------------------------------------

  datatype SummarizeEachResult = SummarizeEachResult(successCount: int, failureCount: int, summaryIds: seq<int>)

  /**
   * One member task of summarizeEach as it happened: the member, the request
   * sent, the content it saved (the reply's text, possibly null), the id the
   * database would give the summary, and the id of the saved summary, if the
   * save went through.
   */
  datatype MemberOutcome = MemberOutcome(
    member: Relationship,
    request: ChatRequest,
    content: Option<string>,
    attempt: int,
    summaryId: Option<int>)

  /** The summary a member task saves: "Summary of T n", the member's entity, the text, batch and configuration. */
  function MemberSummaryDraft(member: Relationship, content: Option<string>, config: ModelConfiguration,
                              batchId: int): Summary
  {
    Summary(0, Some("Summary of " + Str(member.sourceType) + " " + IntToString(member.sourceId)),
      member.sourceType, Some(member.sourceId), content, Some(batchId), Some(config), None, None)
  }

  /** The row one task added: its summary with the id it was saved under, or nothing. */
  function MemberRowFor(o: MemberOutcome, config: ModelConfiguration, batchId: int): seq<Summary>
  {
    if o.summaryId.Some? then [MemberSummaryDraft(o.member, o.content, config, batchId).(id := o.summaryId.value)] else []
  }

  /** The rows the tasks added, in task order. */
  function MemberRows(outcomes: seq<MemberOutcome>, config: ModelConfiguration, batchId: int): seq<Summary>
  {
    if outcomes == [] then []
    else MemberRows(outcomes[..|outcomes| - 1], config, batchId) + MemberRowFor(outcomes[|outcomes| - 1], config, batchId)
  }

  /** The requests the tasks sent, one each, in task order. */
  function MemberRequests(outcomes: seq<MemberOutcome>): (r: seq<ChatRequest>)
    ensures |r| == |outcomes|
  {
    if outcomes == [] then [] else MemberRequests(outcomes[..|outcomes| - 1]) + [outcomes[|outcomes| - 1].request]
  }

  /** The members the tasks ran for, in task order. */
  function MembersOf(outcomes: seq<MemberOutcome>): (r: seq<Relationship>)
    ensures |r| == |outcomes|
  {
    if outcomes == [] then [] else MembersOf(outcomes[..|outcomes| - 1]) + [outcomes[|outcomes| - 1].member]
  }

  /** The ids of the saved summaries, in task order. */
  function SavedIds(outcomes: seq<MemberOutcome>): seq<int>
  {
    if outcomes == [] then []
    else
      var o := outcomes[|outcomes| - 1];
      SavedIds(outcomes[..|outcomes| - 1]) + if o.summaryId.Some? then [o.summaryId.value] else []
  }

  /** What each task answered: true exactly when its summary was saved. */
  function Answers(outcomes: seq<MemberOutcome>): (r: seq<bool>)
    ensures |r| == |outcomes|
  {
    if outcomes == [] then [] else Answers(outcomes[..|outcomes| - 1]) + [outcomes[|outcomes| - 1].summaryId.Some?]
  }

  /**
   * A member task: one request with the summarizeEach system prompt and the
   * member's entity info; a provider exception saves nothing and answers
   * false; otherwise the reply's text (null included) is the content, and
   * the summary is saved, under the id tried, exactly when the store
   * accepts the row.
   */
  ghost predicate MemberFits(o: MemberOutcome, reply: Reply, rejects: Summary -> Option<Exception>,
                             config: ModelConfiguration, batchId: int)
  {
    && o.request.systemPrompt == Some(EachSystemPrompt)
    && o.request.userPrompt == MemberInfo(o.member)
    && (reply.Raised? ==> o.summaryId.None?)
    && o.content == (if reply.Replied? then Some(reply.text) else None)
    && (o.summaryId.Some? <==>
          !reply.Raised? && rejects(SummaryWithId(MemberSummaryDraft(o.member, o.content, config, batchId), o.attempt)).None?)
    && (o.summaryId.Some? ==> o.summaryId.value == o.attempt)
  }

  /** What running the member tasks did, stated as the requests and rows they added. */
  ghost predicate MembersSummarized(members: seq<Relationship>, config: ModelConfiguration, batchId: int,
                                    respond: (nat, ChatRequest) -> Reply, rejects: Summary -> Option<Exception>,
                                    requests0: seq<ChatRequest>, requests: seq<ChatRequest>,
                                    rows0: seq<Summary>, rows: seq<Summary>, outcomes: seq<MemberOutcome>)
  {
    && MembersOf(outcomes) == members
    && requests == requests0 + MemberRequests(outcomes)
    && rows == rows0 + MemberRows(outcomes, config, batchId)
    && forall k :: 0 <= k < |outcomes| ==> MemberFits(outcomes[k], respond(|requests0| + k, outcomes[k].request), rejects, config, batchId)
  }

  /**
   * summarizeEachInCollection: the configuration is resolved even for an
   * empty collection, so an unknown id fails the call before any task;
   * otherwise one task runs per member and the result counts the tasks that
   * saved a summary, the others, and the saved ids.
   */
  ghost predicate EachSummarized(members: seq<Relationship>, configId: Option<int>,
                                 configs: map<int, ModelConfiguration>, batchId: int,
                                 respond: (nat, ChatRequest) -> Reply, rejects: Summary -> Option<Exception>,
                                 requests0: seq<ChatRequest>, requests: seq<ChatRequest>,
                                 rows0: seq<Summary>, rows: seq<Summary>, outcomes: seq<MemberOutcome>,
                                 r: Result<SummarizeEachResult>)
  {
    match FindConfigurationById(configs, configId)
    case Err(e) => r == Err(e) && outcomes == [] && requests == requests0 && rows == rows0
    case Ok(config) =>
      r == Ok(EachResultOf(outcomes))
      && MembersSummarized(members, config, batchId, respond, rejects, requests0, requests, rows0, rows, outcomes)
  }

  /** The result the tasks' answers fold into: successes, failures and the saved ids. */
  function EachResultOf(outcomes: seq<MemberOutcome>): SummarizeEachResult
  {
    var answers := Answers(outcomes);
    var successCount := Seqs.Count(answers, Seqs.IsTrue);
    SummarizeEachResult(successCount, |answers| - successCount, SavedIds(outcomes))
  }

  /** The body of one member task (the asynchronous supplier of summarizeEach). */
  method SummarizeMember(member: Relationship, config: ModelConfiguration, batchId: int,
                         chat: ChatModel, store: Repository<Summary>)
    returns (savedId: Option<int>, ghost o: MemberOutcome)
    requires store.Valid() && store.withId == SummaryWithId
    modifies chat, store
    ensures store.Valid()
    ensures o.member == member && o.summaryId == savedId
    ensures chat.requests == old(chat.requests) + [o.request]
    ensures o.attempt == old(store.nextId)
    ensures MemberFits(o, chat.respond(|old(chat.requests)|, o.request), store.rejects, config, batchId)
    ensures store.rows == old(store.rows) + MemberRowFor(o, config, batchId)
  {
    var entityInfo := MemberInfo(member);
    var reply := GenerateResponse(chat, Some(EachSystemPrompt), entityInfo, Some(config));
    ghost var options := ChatOptionsOf(Some(config));
    ghost var request := ChatRequest(Some(EachSystemPrompt), entityInfo, options);
    if reply.Err? {
      savedId := None;
      o := MemberOutcome(member, request, None, old(store.nextId), None);
      return;
    }
    var content := reply.value;
    var saved := store.Insert(MemberSummaryDraft(member, content, config, batchId));
    savedId := if saved.Ok? then Some(saved.value) else None;
    o := MemberOutcome(member, request, content, old(store.nextId), savedId);
  }

  /** One more member task keeps MembersSummarized. */
  lemma MemberStep(members: seq<Relationship>, config: ModelConfiguration, batchId: int,
                   respond: (nat, ChatRequest) -> Reply, rejects: Summary -> Option<Exception>,
                   requests0: seq<ChatRequest>, requests: seq<ChatRequest>, requests': seq<ChatRequest>,
                   rows0: seq<Summary>, rows: seq<Summary>, rows': seq<Summary>,
                   outcomes: seq<MemberOutcome>, o: MemberOutcome, members': seq<Relationship>)
    requires MembersSummarized(members, config, batchId, respond, rejects, requests0, requests, rows0, rows, outcomes)
    requires requests' == requests + [o.request]
    requires MemberFits(o, respond(|requests|, o.request), rejects, config, batchId)
    requires rows' == rows + MemberRowFor(o, config, batchId)
    requires members' == members + [o.member]
    ensures MembersSummarized(members', config, batchId, respond, rejects, requests0, requests', rows0, rows',
      outcomes + [o])
  {
    var outcomes' := outcomes + [o];
    assert outcomes'[..|outcomes|] == outcomes;
    assert requests' == requests0 + MemberRequests(outcomes');
    assert rows' == rows0 + MemberRows(outcomes', config, batchId);
    forall k | 0 <= k < |outcomes'|
      ensures MemberFits(outcomes'[k], respond(|requests0| + k, outcomes'[k].request), rejects, config, batchId)
    {
      if k < |outcomes| {
        assert outcomes'[k] == outcomes[k];
      }
    }
  }

  /** One turn of the member loop: the k-th member's task, its answer and its saved id. */
  method NextMember(members: seq<Relationship>, k: nat, config: ModelConfiguration, batchId: int,
                    chat: ChatModel, store: Repository<Summary>,
                    ghost requests0: seq<ChatRequest>, ghost rows0: seq<Summary>,
                    answers: seq<bool>, summaryIds: seq<int>, ghost outcomes: seq<MemberOutcome>)
    returns (answers': seq<bool>, summaryIds': seq<int>, ghost outcomes': seq<MemberOutcome>)
    requires k < |members|
    requires store.Valid() && store.withId == SummaryWithId
    requires answers == Answers(outcomes) && summaryIds == SavedIds(outcomes)
    requires MembersSummarized(members[..k], config, batchId, chat.respond, store.rejects, requests0, chat.requests,
      rows0, store.rows, outcomes)
    modifies chat, store
    ensures store.Valid()
    ensures answers' == Answers(outcomes') && summaryIds' == SavedIds(outcomes')
    ensures MembersSummarized(members[..k + 1], config, batchId, chat.respond, store.rejects, requests0, chat.requests,
      rows0, store.rows, outcomes')
  {
    ghost var requestsBefore, rowsBefore := chat.requests, store.rows;
    var savedId, o := SummarizeMember(members[k], config, batchId, chat, store);
    Seqs.TakeOneMore(members, k);
    MemberStep(members[..k], config, batchId, chat.respond, store.rejects, requests0, requestsBefore, chat.requests,
      rows0, rowsBefore, store.rows, outcomes, o, members[..k + 1]);
    outcomes' := outcomes + [o];
    FoldSnoc(outcomes, o);
    summaryIds' := if savedId.Some? then summaryIds + [savedId.value] else summaryIds;
    answers' := answers + [savedId.Some?];
  }

  /** One more outcome adds its answer, and its saved id when there is one. */
  lemma FoldSnoc(outcomes: seq<MemberOutcome>, o: MemberOutcome)
    ensures Answers(outcomes + [o]) == Answers(outcomes) + [o.summaryId.Some?]
    ensures SavedIds(outcomes + [o]) == SavedIds(outcomes) + if o.summaryId.Some? then [o.summaryId.value] else []
  {
    assert (outcomes + [o])[..|outcomes|] == outcomes;
  }

  /** The member tasks, one after another, in member order. */
  method RunMemberTasks(members: seq<Relationship>, config: ModelConfiguration, batchId: int,
                        chat: ChatModel, store: Repository<Summary>)
    returns (answers: seq<bool>, summaryIds: seq<int>, ghost outcomes: seq<MemberOutcome>)
    requires store.Valid() && store.withId == SummaryWithId
    modifies chat, store
    ensures store.Valid()
    ensures answers == Answers(outcomes) && summaryIds == SavedIds(outcomes)
    ensures MembersSummarized(members, config, batchId, chat.respond, store.rejects, old(chat.requests), chat.requests,
      old(store.rows), store.rows, outcomes)
  {
    answers, summaryIds, outcomes := [], [], [];
    var k := 0;
    while k < |members|
      invariant 0 <= k <= |members|
      invariant store.Valid()
      invariant answers == Answers(outcomes) && summaryIds == SavedIds(outcomes)
      invariant MembersSummarized(members[..k], config, batchId, chat.respond, store.rejects, old(chat.requests), chat.requests,
        old(store.rows), store.rows, outcomes)
    {
      answers, summaryIds, outcomes := NextMember(members, k, config, batchId, chat, store,
        old(chat.requests), old(store.rows), answers, summaryIds, outcomes);
      k := k + 1;
    }
    assert members[..k] == members;
  }

  /**
   * summarizeEachInCollection. The collection's relationships are read as
   * `relationships`; the batch id (System.nanoTime in the service) is a
   * parameter.
   */
  method SummarizeEachInCollection(configId: Option<int>, collectionId: int, batchId: int,
                                   configs: map<int, ModelConfiguration>, relationships: seq<Relationship>,
                                   chat: ChatModel, store: Repository<Summary>)
    returns (r: Result<SummarizeEachResult>, ghost outcomes: seq<MemberOutcome>)
    requires store.Valid() && store.withId == SummaryWithId
    modifies chat, store
    ensures store.Valid()
    ensures EachSummarized(CollectionMembers(relationships, collectionId), configId, configs, batchId, chat.respond, store.rejects,
      old(chat.requests), chat.requests, old(store.rows), store.rows, outcomes, r)
  {
    var members := CollectionMembers(relationships, collectionId);
    var found := FindConfigurationById(configs, configId);
    if found.Err? {
      return Err(found.error), [];
    }
    var result;
    result, outcomes := RunAndCount(members, found.value, batchId, chat, store);
    r := Ok(result);
  }

  /** Runs the member tasks and folds their answers into the counts and the saved ids. */
  method RunAndCount(members: seq<Relationship>, config: ModelConfiguration, batchId: int,
                     chat: ChatModel, store: Repository<Summary>)
    returns (result: SummarizeEachResult, ghost outcomes: seq<MemberOutcome>)
    requires store.Valid() && store.withId == SummaryWithId
    modifies chat, store
    ensures store.Valid()
    ensures result == EachResultOf(outcomes)
    ensures MembersSummarized(members, config, batchId, chat.respond, store.rejects, old(chat.requests), chat.requests,
      old(store.rows), store.rows, outcomes)
  {
    var answers, summaryIds;
    answers, summaryIds, outcomes := RunMemberTasks(members, config, batchId, chat, store);
    var successCount := Seqs.Count(answers, Seqs.IsTrue);
    result := SummarizeEachResult(successCount, |answers| - successCount, summaryIds);
  }

  /**
   * The rows the member tasks add are the saved summaries, one per true
   * answer, with exactly the saved ids, in order; each carries the batch id
   * and the configuration and is about one of the members.
   */
  lemma {:induction false} MemberRowsMatchIds(outcomes: seq<MemberOutcome>, config: ModelConfiguration, batchId: int)
    ensures |MemberRows(outcomes, config, batchId)| == |SavedIds(outcomes)| == Seqs.Count(Answers(outcomes), Seqs.IsTrue)
    ensures forall j :: 0 <= j < |SavedIds(outcomes)| ==>
      var row := MemberRows(outcomes, config, batchId)[j];
      row.id == SavedIds(outcomes)[j] && row.batchId == Some(batchId) && row.configuration == Some(config)
      && row.entityId.Some? && row.entityId.value in SourceIds(MembersOf(outcomes))
  {
    if outcomes != [] {
      var init, o := outcomes[..|outcomes| - 1], outcomes[|outcomes| - 1];
      MemberRowsMatchIds(init, config, batchId);
      Seqs.CountAppend(Answers(init), [o.summaryId.Some?], Seqs.IsTrue);
      var rows, ids := MemberRows(outcomes, config, batchId), SavedIds(outcomes);
      var rows0, ids0 := MemberRows(init, config, batchId), SavedIds(init);
      assert SourceIds(MembersOf(outcomes)) == SourceIds(MembersOf(init)) + [o.member.sourceId];
      forall j | 0 <= j < |ids|
        ensures rows[j].id == ids[j] && rows[j].batchId == Some(batchId) && rows[j].configuration == Some(config)
          && rows[j].entityId.Some? && rows[j].entityId.value in SourceIds(MembersOf(outcomes))
      {
        if j < |ids0| {
          assert rows[j] == rows0[j] && ids[j] == ids0[j];
        }
      }
    }
  }

  /** The entity ids of a list of members. */
  function SourceIds(members: seq<Relationship>): (ids: seq<int>)
    ensures |ids| == |members|
  {
    if members == [] then [] else SourceIds(members[..|members| - 1]) + [members[|members| - 1].sourceId]
  }

  /** The rows and ids the member tasks added, read off MembersSummarized. */
  lemma MembersSummarizedRows(members: seq<Relationship>, config: ModelConfiguration, batchId: int,
                              respond: (nat, ChatRequest) -> Reply, rejects: Summary -> Option<Exception>,
                              requests0: seq<ChatRequest>, requests: seq<ChatRequest>,
                              rows0: seq<Summary>, rows: seq<Summary>, outcomes: seq<MemberOutcome>)
    requires MembersSummarized(members, config, batchId, respond, rejects, requests0, requests, rows0, rows, outcomes)
    ensures |requests| - |requests0| == |members| == |Answers(outcomes)|
    ensures |SavedIds(outcomes)| == Seqs.Count(Answers(outcomes), Seqs.IsTrue) == |rows| - |rows0|
    ensures rows[..|rows0|] == rows0
    ensures forall j :: 0 <= j < |SavedIds(outcomes)| ==>
      var row := rows[|rows0| + j];
      && row.id == SavedIds(outcomes)[j]
      && row.batchId == Some(batchId)
      && row.configuration == Some(config)
      && row.entityId.Some? && row.entityId.value in SourceIds(members)
  {
    MemberRowsMatchIds(outcomes, config, batchId);
    var added := MemberRows(outcomes, config, batchId);
    assert rows[..|rows0|] == rows0;
    forall j | 0 <= j < |SavedIds(outcomes)|
      ensures rows[|rows0| + j] == added[j]
    {
    }
  }

  /**
   * summarizeEachInCollection's accounting: one task per member, the
   * success and failure counts add up to the number of members, and there
   * is one summary id and one new summary per success; the new summaries
   * are described by MembersSummarizedRows.
   */
  lemma EachAccounting(members: seq<Relationship>, configId: Option<int>,
                       configs: map<int, ModelConfiguration>, batchId: int,
                       respond: (nat, ChatRequest) -> Reply, rejects: Summary -> Option<Exception>,
                       requests0: seq<ChatRequest>, requests: seq<ChatRequest>,
                       rows0: seq<Summary>, rows: seq<Summary>, outcomes: seq<MemberOutcome>,
                       r: Result<SummarizeEachResult>, config: ModelConfiguration)
    requires EachSummarized(members, configId, configs, batchId, respond, rejects, requests0, requests, rows0, rows, outcomes, r)
    requires FindConfigurationById(configs, configId) == Ok(config)
    ensures r == Ok(EachResultOf(outcomes))
    ensures MembersSummarized(members, config, batchId, respond, rejects, requests0, requests, rows0, rows, outcomes)
    ensures |requests| - |requests0| == |members|
    ensures r.value.successCount + r.value.failureCount == |members| && r.value.failureCount >= 0
    ensures |r.value.summaryIds| == r.value.successCount == |rows| - |rows0|
  {
    MembersSummarizedRows(members, config, batchId, respond, rejects, requests0, requests, rows0, rows, outcomes);
  }

  /** Each task's answer is whether its summary was saved. */
  lemma {:induction false} AnswerAt(outcomes: seq<MemberOutcome>, k: int)
    requires 0 <= k < |outcomes|
    ensures Answers(outcomes)[k] == outcomes[k].summaryId.Some?
  {
    if k < |outcomes| - 1 {
      AnswerAt(outcomes[..|outcomes| - 1], k);
    }
  }

  /**
   * Which member tasks succeed: the k-th member counts as a success exactly
   * when the provider did not throw on its request and the store accepted
   * its summary, which then holds the reply's text (null included) under
   * the reported id.
   */
  lemma MemberSucceedsIff(members: seq<Relationship>, config: ModelConfiguration, batchId: int,
                          respond: (nat, ChatRequest) -> Reply, rejects: Summary -> Option<Exception>,
                          requests0: seq<ChatRequest>, requests: seq<ChatRequest>,
                          rows0: seq<Summary>, rows: seq<Summary>, outcomes: seq<MemberOutcome>, k: int)
    requires MembersSummarized(members, config, batchId, respond, rejects, requests0, requests, rows0, rows, outcomes)
    requires 0 <= k < |members|
    ensures var o := outcomes[k];
      var reply := respond(|requests0| + k, requests[|requests0| + k]);
      && o.member == members[k]
      && requests[|requests0| + k].userPrompt == MemberInfo(members[k])
      && (Answers(outcomes)[k] <==>
            !reply.Raised? && rejects(SummaryWithId(MemberSummaryDraft(members[k], o.content, config, batchId), o.attempt)).None?)
      && (!reply.Raised? ==> o.content == (if reply.Replied? then Some(reply.text) else None))
  {
    AnswerAt(outcomes, k);
    MemberAt(outcomes, k);
    RequestAt(outcomes, k);
  }

  /** The k-th member is that of the k-th task. */
  lemma {:induction false} MemberAt(outcomes: seq<MemberOutcome>, k: int)
    requires 0 <= k < |outcomes|
    ensures MembersOf(outcomes)[k] == outcomes[k].member
  {
    if k < |outcomes| - 1 {
      MemberAt(outcomes[..|outcomes| - 1], k);
    }
  }

  /** The k-th request is that of the k-th task. */
  lemma {:induction false} RequestAt(outcomes: seq<MemberOutcome>, k: int)
    requires 0 <= k < |outcomes|
    ensures MemberRequests(outcomes)[k] == outcomes[k].request
  {
    if k < |outcomes| - 1 {
      RequestAt(outcomes[..|outcomes| - 1], k);
    }
  }

}
