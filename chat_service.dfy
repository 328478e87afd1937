/**
 * ChatService: the guards a chat message passes before it reaches the
 * language model, and what the caller gets back.
 */
module ChatService {
  import opened Wrappers
  import opened Text
  import opened AiService

  /** The longest chat content accepted. */
  const MaxChatLength: nat := 10000

  function EmptyContent(): Exception
  {
    ValidationException("Chat content cannot be empty")
  }

  function ContentTooLong(): Exception
  {
    ValidationException("Chat content too long (max 10000 characters)")
  }

  /**
   * Why chat refuses a content, if it does. The length is logged before the
   * null guard runs, so a null content fails with a NullPointerException and
   * the guard's null branch never produces the empty-content error.
   */
  function ChatRefusal(content: Option<string>): (r: Option<Exception>)
    ensures r == Some(NullPointerException) <==> content.None?
    ensures r == Some(EmptyContent()) <==> content.Some? && IsBlank(content.value)
    ensures r == Some(ContentTooLong()) <==> content.Some? && !IsBlank(content.value) && |content.value| > MaxChatLength
    ensures r.None? <==> content.Some? && !IsBlank(content.value) && |content.value| <= MaxChatLength
  {
    match content
    case None => Some(NullPointerException)
    case Some(c) =>
      TrimEmptyIffAllSpace(c, IsJavaSpace);
      if Trim(c, IsJavaSpace) == [] then Some(EmptyContent())
      else if |c| > MaxChatLength then Some(ContentTooLong())
      else None
  }

  /**
   * What chat returns for generateResponse's outcome: the text unchanged;
   * a null text fails when its length is logged; a failure is rethrown as is.
   */
  function ChatReply(response: Result<Option<string>>): (r: Result<string>)
    ensures r.Ok? <==> response.Ok? && response.value.Some?
    ensures r.Ok? ==> r.value == response.value.value
    ensures response.Err? ==> r == Err(response.error)
    ensures response == Ok(None) ==> r == Err(NullPointerException)
  {
    match response
    case Err(e) => Err(e)
    case Ok(None) => Err(NullPointerException)
    case Ok(Some(text)) => Ok(text)
  }

  /**
   * chat: a refused content raises before the model is called; otherwise
   * exactly one request goes out, the content as the user message with no
   * system message and no configuration, and its reply comes back.
   */
  method Chat(chat: ChatModel, content: Option<string>) returns (r: Result<string>)
    modifies chat
    ensures ChatRefusal(content).Some? ==> r == Err(ChatRefusal(content).value) && chat.requests == old(chat.requests)
    ensures ChatRefusal(content).None? ==>
      var request := ChatRequest(None, content.value, NoOptions);
      && chat.requests == old(chat.requests) + [request]
      && r == ChatReply(ReplyResult(chat.respond(|old(chat.requests)|, request)))
  {
    var refusal := ChatRefusal(content);
    if refusal.Some? {
      return Err(refusal.value);
    }
    var response := GenerateResponse(chat, None, content.value, None);
    r := ChatReply(response);
  }

  /**
   * The limit is inclusive: a content of exactly 10000 characters with a
   * visible character is sent, one more character is refused.
   */
  lemma LengthLimitInclusive(c: string, x: char)
    requires |c| == MaxChatLength && !IsBlank(c)
    ensures ChatRefusal(Some(c)).None?
    ensures ChatRefusal(Some(c + [x])) == Some(ContentTooLong())
  {
    var i :| 0 <= i < |c| && !IsJavaSpace(c[i]);
    assert (c + [x])[i] == c[i];
  }
}
