/**
 * AIService: turning a model configuration into chat options, normalising
 * display model names to API model ids, and sending a prompt to the chat
 * model. The chat model itself (the language-model provider) is opaque.
 */
module AiService {
  import opened Wrappers
  import opened Text
  import opened Records

  /**
   * The options a chat request carries. Parameter values are the
   * configuration's JSON nodes as found; their numeric conversion is not
   * modelled.
   */
  datatype ChatOptions = ChatOptions(
    model: Option<string>,
    temperature: Option<Json>,
    topP: Option<Json>,
    maxTokens: Option<Json>,
    frequencyPenalty: Option<Json>,
    presencePenalty: Option<Json>)

  const NoOptions: ChatOptions := ChatOptions(None, None, None, None, None, None)

  /** One request to the provider: an optional system message, a user message and options. */
  datatype ChatRequest = ChatRequest(systemPrompt: Option<string>, userPrompt: string, options: ChatOptions)

  /** What the provider gives back: a text, a null text, or an exception. */
  datatype Reply = Replied(text: string) | NoText | Raised(error: Exception)

  /** The replies the provider gave to the requests logged from position `from` on, in order. */
  function Replies(respond: (nat, ChatRequest) -> Reply, requests: seq<ChatRequest>, from: nat): (replies: seq<Reply>)
    requires from <= |requests|
    ensures |replies| == |requests| - from
    decreases |requests|
  {
    if |requests| == from then []
    else
      var n := |requests| - 1;
      Replies(respond, requests[..n], from) + [respond(n, requests[n])]
  }

  /** Reply i is the provider's answer to request from + i, given as the from + i-th request. */
  lemma {:induction false} ReplyAt(respond: (nat, ChatRequest) -> Reply, requests: seq<ChatRequest>, from: nat, i: nat)
    requires from + i < |requests|
    ensures Replies(respond, requests, from)[i] == respond(from + i, requests[from + i])
    decreases |requests|
  {
    var n := |requests| - 1;
    if from + i < n {
      ReplyAt(respond, requests[..n], from, i);
    }
  }

  /** Logging one more request adds its reply and keeps the earlier ones. */
  lemma RepliesSnoc(respond: (nat, ChatRequest) -> Reply, requests: seq<ChatRequest>, requests': seq<ChatRequest>,
                    from: nat)
    requires from <= |requests| && |requests'| == |requests| + 1 && requests'[..|requests|] == requests
    ensures Replies(respond, requests', from)
         == Replies(respond, requests, from) + [respond(|requests|, requests'[|requests|])]
  {
  }

  /**
   * The language-model provider. `respond` is an arbitrary function of the
   * request and of how many requests came before it, so repeated requests
   * may get different replies; `requests` records every request sent.
   */
  class ChatModel {
    const respond: (nat, ChatRequest) -> Reply
    var requests: seq<ChatRequest>

    constructor (respond: (nat, ChatRequest) -> Reply)
      ensures this.respond == respond && requests == []
    {
      this.respond := respond;
      requests := [];
    }

    method Call(request: ChatRequest) returns (reply: Reply)
      modifies this`requests
      ensures requests == old(requests) + [request]
      ensures reply == respond(|old(requests)|, request)
    {
      reply := respond(|requests|, request);
      requests := requests + [request];
    }
  }

  /** The API id each known display name maps to, looked up by the upper-cased name. */
  function KnownModelId(upperName: string): Option<string>
  {
    if upperName == "GPT-3.5-TURBO" then Some("gpt-3.5-turbo")
    else if upperName == "GPT-4" then Some("gpt-4")
    else if upperName == "GPT-4O" then Some("gpt-4o")
    else if upperName == "GPT-4O-MINI" then Some("gpt-4o-mini")
    else if upperName == "GPT-4-TURBO" then Some("gpt-4-turbo")
    else None
  }

  /** The characters Java's regex `.` does not match. */
  predicate IsLineTerminator(c: char)
  {
    c == '\n' || c == '\r' || c == '\U{85}' || c == '\U{2028}' || c == '\U{2029}'
  }

  /** `name.matches("^gpt-[0-9].*")`: "gpt-", a digit, then no line terminator. */
  predicate LooksLikeApiId(name: string)
  {
    |name| >= 5 && name[..4] == "gpt-" && IsDigit(name[4])
    && forall i :: 5 <= i < |name| ==> !IsLineTerminator(name[i])
  }

  /** convertToApiModelName */
  function ConvertToApiModelName(displayName: Option<string>): (r: string)
    ensures forall i :: 0 <= i < |r| ==> !IsUpperAscii(r[i])
  {
    match displayName
    case None => "gpt-3.5-turbo"
    case Some(name) =>
      match KnownModelId(Upper(name))
      case Some(id) => id
      case None =>
        if LooksLikeApiId(name) then Lower(name)
        else ReplaceChar(ReplaceChar(Lower(name), ' ', '-'), '_', '-')
  }

  lemma LowerUpperOfLower(s: string)
    requires forall i :: 0 <= i < |s| ==> !IsUpperAscii(s[i])
    ensures Lower(Upper(s)) == s
  {
    assert forall i :: 0 <= i < |s| ==> LowerChar(UpperChar(s[i])) == s[i];
  }

  /** Each known id is the lower-cased form of the name it is found under. */
  lemma KnownIdIsLowered(upperName: string)
    requires KnownModelId(upperName).Some?
    ensures KnownModelId(upperName).value == Lower(upperName)
  {
  }

  /** Each known id already has the API-id shape. */
  lemma KnownIdLooksLikeApiId(upperName: string)
    requires KnownModelId(upperName).Some?
    ensures LooksLikeApiId(KnownModelId(upperName).value)
  {
    var id := KnownModelId(upperName).value;
    assert id[..4] == "gpt-" && IsDigit(id[4]);
  }

  /** Lower-casing keeps the API-id shape. */
  lemma LowerKeepsApiId(name: string)
    requires LooksLikeApiId(name)
    ensures LooksLikeApiId(Lower(name))
  {
    var r := Lower(name);
    assert r[..4] == "gpt-" by {
      assert forall i :: 0 <= i < 4 ==> r[i] == LowerChar(name[i]) == name[i];
    }
  }

  /** The strings ConvertToApiModelName leaves as they are. */
  predicate IsApiModelName(r: string)
  {
    && (forall i :: 0 <= i < |r| ==> !IsUpperAscii(r[i]))
    && (KnownModelId(Upper(r)).Some? || LooksLikeApiId(r)
        || forall i :: 0 <= i < |r| ==> r[i] != ' ' && r[i] != '_')
  }

  /** Every result of ConvertToApiModelName is an API model name. */
  lemma ConvertGivesApiModelName(displayName: Option<string>)
    ensures IsApiModelName(ConvertToApiModelName(displayName))
  {
    match displayName
    case None =>
      KnownIdLooksLikeApiId("GPT-3.5-TURBO");
    case Some(name) =>
      if KnownModelId(Upper(name)).Some? {
        KnownIdLooksLikeApiId(Upper(name));
      } else if LooksLikeApiId(name) {
        LowerKeepsApiId(name);
      }
  }

  /** An API model name converts to itself. */
  lemma ApiModelNameIsFixed(r: string)
    requires IsApiModelName(r)
    ensures ConvertToApiModelName(Some(r)) == r
  {
    if KnownModelId(Upper(r)).Some? {
      KnownIdIsLowered(Upper(r));
      LowerUpperOfLower(r);
    } else if !LooksLikeApiId(r) {
      assert Lower(r) == r;
      assert ReplaceChar(ReplaceChar(r, ' ', '-'), '_', '-') == r;
    }
  }

  /**
   * Normalising twice is the same as normalising once: a converted name is
   * already an API id and converts to itself.
   */
  lemma ConvertIdempotent(displayName: Option<string>)
    ensures var r := ConvertToApiModelName(displayName);
      ConvertToApiModelName(Some(r)) == r
  {
    ConvertGivesApiModelName(displayName);
    ApiModelNameIsFixed(ConvertToApiModelName(displayName));
  }

  /**
   * The five known display names match in any letter case: two spellings
   * that upper-case alike convert to the same lower-case API id.
   */
  lemma KnownNameAnyCase(a: string, b: string)
    requires Upper(a) == Upper(b) && KnownModelId(Upper(a)).Some?
    ensures ConvertToApiModelName(Some(a)) == ConvertToApiModelName(Some(b)) == Lower(Upper(a))
  {
    KnownIdIsLowered(Upper(a));
  }

  /**
   * A name that is neither known nor already an API id keeps its length and
   * has no space and no underscore left.
   */
  lemma OtherNameHyphenated(name: string)
    requires KnownModelId(Upper(name)).None? && !LooksLikeApiId(name)
    ensures var r := ConvertToApiModelName(Some(name));
      && |r| == |name|
      && forall i :: 0 <= i < |r| ==> r[i] != ' ' && r[i] != '_'
  {
  }

  /** The option a parameter key contributes: the key's node when the object has it. */
  function ParamOption(node: Json, key: string): (o: Option<Json>)
    ensures o.Some? <==> Has(node, key)
    ensures o.Some? ==> o.value == node.fields[key]
  {
    if Has(node, key) then Some(node.fields[key]) else None
  }

  /**
   * The options buildChatOptions produces for a configuration, as one value:
   * empty without a configuration or without a parameter object, otherwise
   * the converted model id (when a model name is given) and each parameter
   * node found under its key.
   */
  function ChatOptionsOf(config: Option<ModelConfiguration>): ChatOptions
  {
    if config.None? || config.value.modelConfig.None? then NoOptions
    else
      var c := config.value;
      var node := c.modelConfig.value;
      ChatOptions(
        if c.model.Some? && c.model.value.modelName.Some? then Some(ConvertToApiModelName(c.model.value.modelName)) else None,
        ParamOption(node, "temperature"),
        ParamOption(node, "top_p"),
        ParamOption(node, "max_tokens"),
        ParamOption(node, "frequency_penalty"),
        ParamOption(node, "presence_penalty"))
  }

  /**
   * buildChatOptions: no configuration, or one without a parameter object,
   * gives empty options (even when the configuration names a model);
   * otherwise the model id is set when the configuration names a model, and
   * each sampling parameter is set exactly when its key is present.
   */
  method BuildChatOptions(config: Option<ModelConfiguration>) returns (o: ChatOptions)
    ensures o == ChatOptionsOf(config)
    ensures config.None? || config.value.modelConfig.None? ==> o == NoOptions
    ensures config.Some? && config.value.modelConfig.Some? ==>
      var c := config.value;
      var node := c.modelConfig.value;
      && (o.model.Some? <==> c.model.Some? && c.model.value.modelName.Some?)
      && (o.model.Some? ==> o.model.value == ConvertToApiModelName(c.model.value.modelName))
      && o.temperature == ParamOption(node, "temperature")
      && o.topP == ParamOption(node, "top_p")
      && o.maxTokens == ParamOption(node, "max_tokens")
      && o.frequencyPenalty == ParamOption(node, "frequency_penalty")
      && o.presencePenalty == ParamOption(node, "presence_penalty")
  {
    o := NoOptions;
    if config.None? || config.value.modelConfig.None? {
      return;
    }
    var c := config.value;
    var node := c.modelConfig.value;
    if c.model.Some? && c.model.value.modelName.Some? {
      o := o.(model := Some(ConvertToApiModelName(c.model.value.modelName)));
    }
    if Has(node, "temperature") {
      o := o.(temperature := Some(node.fields["temperature"]));
    }
    if Has(node, "top_p") {
      o := o.(topP := Some(node.fields["top_p"]));
    }
    if Has(node, "max_tokens") {
      o := o.(maxTokens := Some(node.fields["max_tokens"]));
    }
    if Has(node, "frequency_penalty") {
      o := o.(frequencyPenalty := Some(node.fields["frequency_penalty"]));
    }
    if Has(node, "presence_penalty") {
      o := o.(presencePenalty := Some(node.fields["presence_penalty"]));
    }
  }

  /**
   * generateResponse, both overloads (`systemPrompt` is None for the one
   * without a system message): exactly one request is sent, with the options
   * built from the configuration; its text (possibly null) is returned, and a
   * provider exception comes back wrapped in a RuntimeException.
   */
  method GenerateResponse(chat: ChatModel, systemPrompt: Option<string>, userPrompt: string,
                          config: Option<ModelConfiguration>)
    returns (r: Result<Option<string>>)
    modifies chat
    ensures var request := ChatRequest(systemPrompt, userPrompt, ChatOptionsOf(config));
      && chat.requests == old(chat.requests) + [request]
      && r == ReplyResult(chat.respond(|old(chat.requests)|, request))
    ensures config.None? ==> chat.requests[|chat.requests| - 1].options == NoOptions
  {
    var options := BuildChatOptions(config);
    var reply := chat.Call(ChatRequest(systemPrompt, userPrompt, options));
    r := ReplyResult(reply);
  }

  /** What generateResponse makes of the provider's reply. */
  function ReplyResult(reply: Reply): (r: Result<Option<string>>)
    ensures r.Err? <==> reply.Raised?
    ensures reply.Raised? ==> r.error == WrappedException(reply.error)
    ensures reply.Replied? ==> r == Ok(Some(reply.text))
    ensures reply.NoText? ==> r == Ok(None)
  {
    match reply
    case Replied(t) => Ok(Some(t))
    case NoText => Ok(None)
    case Raised(e) => Err(WrappedException(e))
  }
}
