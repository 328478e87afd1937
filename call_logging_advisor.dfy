/**
 * ModelCallLoggingAdvisor: the aspect around every chat-model call. It
 * times the call, records what was asked and answered (or how it failed)
 * as a ModelCall, hands the record to an asynchronous save, and returns
 * the call's result or rethrows its exception unchanged.
 *
 * The clock readings, the correlation id and the calling service's name
 * (found by walking the stack) are parameters.
 */
module CallLoggingAdvisor {
  import opened Wrappers
  import opened Text
  import opened Records
  import opened ModelCallRecord
  import Seqs

  /** A Spring AI message: its class's simple name and its text. */
  datatype Message = Message(className: string, text: Option<string>)

  /** A Spring AI Prompt: its instructions (the message list, possibly null). */
  datatype Prompt = Prompt(instructions: Option<seq<Message>>)

  /** An argument of the intercepted call. */
  datatype Arg = PromptArg(prompt: Prompt) | OtherArg

  /**
   * A throwable: whether it is an Exception (rather than an Error), its
   * class's simple name, its message and its stack frames' texts.
   */
  datatype Thrown = Thrown(isException: bool, className: string, message: Option<string>, frames: seq<string>)

  /** What the intercepted call returned: a ChatResponse with its generations' output texts, or anything else. */
  datatype CallResult = ChatResponse(outputs: seq<Option<string>>) | OtherResult

  /** How the intercepted call ended. */
  datatype Outcome = Returned(result: CallResult) | Threw(exception: Thrown)

  // ---------------------------------------------------------------------
  // buildPromptText
  // ---------------------------------------------------------------------

  /** Java's String.replace(target, ""): every non-overlapping occurrence, left to right, removed. */
  function RemoveAll(s: string, target: string): (r: string)
    requires target != []
    ensures |r| <= |s|
    ensures forall c :: c in r ==> c in s
    decreases |s|
  {
    if |s| < |target| then s
    else if s[..|target|] == target then RemoveAll(s[|target|..], target)
    else [s[0]] + RemoveAll(s[1..], target)
  }

  /** The message type: the upper-cased class name without "MESSAGE". */
  function MessageType(m: Message): string
  {
    RemoveAll(Upper(m.className), "MESSAGE")
  }

  /** One line of the prompt text: "TYPE: text". */
  function MessageLine(m: Message): string
  {
    MessageType(m) + ": " + Str(m.text)
  }

  function MessageLines(messages: seq<Message>): seq<string>
  {
    seq(|messages|, i requires 0 <= i < |messages| => MessageLine(messages[i]))
  }

  /** buildPromptText */
  function BuildPromptText(prompt: Option<Prompt>): (r: Option<string>)
    ensures r.None? <==> prompt.None? || prompt.value.instructions.None?
  {
    if prompt.None? || prompt.value.instructions.None? then None
    else Some(Join(MessageLines(prompt.value.instructions.value), "\n"))
  }

  /** The message type of a class name holds no lower-case letter. */
  lemma MessageTypeUpper(m: Message)
    ensures forall c :: c in MessageType(m) ==> !('a' <= c <= 'z')
  {
  }

  /**
   * The prompt text grows by one line per message: a further message adds
   * a line break and its "TYPE: text" line.
   */
  lemma PromptTextAppend(messages: seq<Message>, m: Message)
    ensures BuildPromptText(Some(Prompt(Some(messages + [m]))))
      == Some(if messages == [] then MessageLine(m)
              else BuildPromptText(Some(Prompt(Some(messages)))).value + "\n" + MessageLine(m))
  {
    assert MessageLines(messages + [m]) == MessageLines(messages) + [MessageLine(m)];
    JoinAppend(MessageLines(messages), MessageLine(m), "\n");
  }

  // ---------------------------------------------------------------------
  // determineProvider
  // ---------------------------------------------------------------------

  /** The providers determineProvider recognises, in the order it checks them. */
  const Providers: seq<string> := ["openai", "ollama", "anthropic", "azure"]

  /** determineProvider, from the simple class name of the intercepted target. */
  function DetermineProvider(className: string): string
  {
    var name := Lower(className);
    if Contains(name, "openai") then "openai"
    else if Contains(name, "ollama") then "ollama"
    else if Contains(name, "anthropic") then "anthropic"
    else if Contains(name, "azure") then "azure"
    else "unknown"
  }

  /** A reference definition: the first of the providers the name contains, "unknown" when none. */
  function FirstProvider(name: string, providers: seq<string>): (r: string)
    ensures r == "unknown" || r in providers
  {
    if providers == [] then "unknown"
    else if Contains(name, providers[0]) then providers[0]
    else FirstProvider(name, providers[1..])
  }

  /** determineProvider's checks are the reference definition over Providers. */
  lemma DetermineProviderIsFirst(className: string)
    ensures DetermineProvider(className) == FirstProvider(Lower(className), Providers)
  {
    var n := Lower(className);
    var ps := Providers;
    assert ps[1..][1..][1..] == ["azure"] && ["azure"][1..] == [];
    assert FirstProvider(n, ["azure"]) == if Contains(n, "azure") then "azure" else "unknown";
    assert ps[1..][1..] == ["anthropic", "azure"] && ["anthropic", "azure"][1..] == ["azure"];
    assert FirstProvider(n, ["anthropic", "azure"])
      == if Contains(n, "anthropic") then "anthropic" else FirstProvider(n, ["azure"]);
    assert ps[1..] == ["ollama", "anthropic", "azure"] && ["ollama", "anthropic", "azure"][1..] == ["anthropic", "azure"];
    assert FirstProvider(n, ["ollama", "anthropic", "azure"])
      == if Contains(n, "ollama") then "ollama" else FirstProvider(n, ["anthropic", "azure"]);
  }

  /** providers[k] is the first of the providers that the name contains. */
  predicate FirstHitAt(name: string, providers: seq<string>, k: int)
    requires 0 <= k < |providers|
  {
    Contains(name, providers[k]) && forall j :: 0 <= j < k ==> !Contains(name, providers[j])
  }

  /**
   * Over distinct names other than "unknown", the reference definition
   * picks a name exactly when the text contains it and none before it, and
   * "unknown" exactly when it contains none.
   */
  lemma {:induction false} FirstProviderHit(name: string, providers: seq<string>)
    requires Seqs.Distinct(providers) && "unknown" !in providers
    ensures forall k :: 0 <= k < |providers| ==> (FirstProvider(name, providers) == providers[k] <==> FirstHitAt(name, providers, k))
    ensures FirstProvider(name, providers) == "unknown" <==> forall k :: 0 <= k < |providers| ==> !Contains(name, providers[k])
  {
    if providers != [] {
      var r := FirstProvider(name, providers);
      if Contains(name, providers[0]) {
        forall k | 0 <= k < |providers|
          ensures r == providers[k] <==> FirstHitAt(name, providers, k)
        {
          if k > 0 {
            assert providers[0] != providers[k];
          }
        }
      } else {
        var rest := providers[1..];
        assert Seqs.Distinct(rest) by {
          forall i, j | 0 <= i < j < |rest| ensures rest[i] != rest[j] {
            assert rest[i] == providers[i + 1] && rest[j] == providers[j + 1];
          }
        }
        FirstProviderHit(name, rest);
        forall k | 0 <= k < |providers|
          ensures r == providers[k] <==> FirstHitAt(name, providers, k)
        {
          if k > 0 {
            assert providers[k] == rest[k - 1];
            assert FirstHitAt(name, providers, k) <==> FirstHitAt(name, rest, k - 1) by {
              forall j | 0 <= j < k - 1 ensures rest[j] == providers[j + 1] {}
            }
          } else {
            assert r == "unknown" || r in rest;
            if r in rest {
              var m :| 0 <= m < |rest| && rest[m] == r;
              assert providers[m + 1] == r;
            }
          }
        }
        assert (forall k :: 0 <= k < |providers| ==> !Contains(name, providers[k]))
          <==> (forall k :: 0 <= k < |rest| ==> !Contains(name, rest[k])) by {
          forall k | 0 <= k < |rest| ensures rest[k] == providers[k + 1] {}
        }
      }
    }
  }

  /** The recognised providers are distinct and none is "unknown". */
  lemma ProvidersDistinct()
    ensures Seqs.Distinct(Providers) && "unknown" !in Providers
  {
    assert "openai"[1] != "ollama"[1];
  }

  /**
   * The provider is the first of "openai", "ollama", "anthropic" and
   * "azure" that the lower-cased class name contains, and "unknown" when it
   * contains none.
   */
  lemma ProviderIsFirstHit(className: string)
    ensures var name, r := Lower(className), DetermineProvider(className);
      && (forall k :: 0 <= k < |Providers| ==>
            (r == Providers[k] <==> Contains(name, Providers[k]) && forall j :: 0 <= j < k ==> !Contains(name, Providers[j])))
      && (r == "unknown" <==> forall k :: 0 <= k < |Providers| ==> !Contains(name, Providers[k]))
  {
    DetermineProviderIsFirst(className);
    ProvidersDistinct();
    FirstProviderHit(Lower(className), Providers);
  }

  // ---------------------------------------------------------------------
  // getStackTrace
  // ---------------------------------------------------------------------

  /** getStackTrace: the first ten frames, one per line. */
  function StackTrace(frames: seq<string>): string
  {
    Join(frames[..if |frames| < 10 then |frames| else 10], "\n")
  }

  /** Splitting at every occurrence of c, keeping empty pieces. */
  function Split(s: string, c: char): (r: seq<string>)
    ensures |r| >= 1
  {
    if s == [] then [""]
    else if s[0] == c then [""] + Split(s[1..], c)
    else var rest := Split(s[1..], c); [[s[0]] + rest[0]] + rest[1..]
  }

  /** A piece without c followed by c splits off as the first piece. */
  lemma {:induction false} SplitAfterPiece(a: string, c: char, b: string)
    requires c !in a
    ensures Split(a + [c] + b, c) == [a] + Split(b, c)
  {
    var s := a + [c] + b;
    if a != [] {
      assert s[0] == a[0] != c;
      assert s[1..] == a[1..] + [c] + b;
      SplitAfterPiece(a[1..], c, b);
      assert [a[0]] + a[1..] == a;
    } else {
      assert s[0] == c && s[1..] == b;
    }
  }

  /** A text without c is one piece. */
  lemma {:induction false} SplitWhole(a: string, c: char)
    requires c !in a
    ensures Split(a, c) == [a]
  {
    if a != [] {
      assert a[0] != c;
      SplitWhole(a[1..], c);
      assert [a[0]] + a[1..] == a;
    }
  }

  /** Joining pieces without c by c and splitting at c gives the pieces back. */
  lemma {:induction false} SplitJoin(parts: seq<string>, c: char)
    requires parts != [] && forall i :: 0 <= i < |parts| ==> c !in parts[i]
    ensures Split(Join(parts, [c]), c) == parts
  {
    if |parts| == 1 {
      SplitWhole(parts[0], c);
    } else {
      SplitJoin(parts[1..], c);
      SplitAfterPiece(parts[0], c, Join(parts[1..], [c]));
      assert parts == [parts[0]] + parts[1..];
    }
  }

  /**
   * The stack trace text has one line per kept frame: the first ten frames
   * (all of them when there are fewer), so never more than ten lines.
   */
  lemma StackTraceLines(frames: seq<string>)
    requires frames != [] && forall i :: 0 <= i < |frames| ==> '\n' !in frames[i]
    ensures var lines := Split(StackTrace(frames), '\n');
      && lines == frames[..if |frames| < 10 then |frames| else 10]
      && 1 <= |lines| <= 10
  {
    var kept := frames[..if |frames| < 10 then |frames| else 10];
    assert forall i :: 0 <= i < |kept| ==> kept[i] == frames[i];
    SplitJoin(kept, '\n');
  }

  // ---------------------------------------------------------------------
  // extractPrompt
  // ---------------------------------------------------------------------

  /** extractPrompt: the first Prompt among the arguments, or null. */
  function ExtractPrompt(args: seq<Arg>): (r: Option<Prompt>)
    ensures r.None? <==> forall k :: 0 <= k < |args| ==> !args[k].PromptArg?
    ensures r.Some? ==>
      exists k :: 0 <= k < |args| && args[k] == PromptArg(r.value) && (forall j :: 0 <= j < k ==> !args[j].PromptArg?)
  {
    if args == [] then None
    else if args[0].PromptArg? then Some(args[0].prompt)
    else
      var r := ExtractPrompt(args[1..]);
      assert forall k :: 1 <= k < |args| ==> args[k] == args[1..][k - 1];
      if r.Some? then
        var k :| 0 <= k < |args[1..]| && args[1..][k] == PromptArg(r.value) && (forall j :: 0 <= j < k ==> !args[1..][j].PromptArg?);
        assert args[k + 1] == PromptArg(r.value);
        r
      else r
  }

  // ---------------------------------------------------------------------
  // extractResponseText, determineRequestContext
  // ---------------------------------------------------------------------

  /** extractResponseText: the first generation's output text, null when there is none. */
  function ResponseText(outputs: seq<Option<string>>): (r: Option<string>)
    ensures outputs == [] ==> r.None?
    ensures outputs != [] ==> r == outputs[0]
  {
    if outputs == [] then None else outputs[0]
  }

  /** The package that marks the application's own services. */
  const ServicePackage: string := "sampsoftware.genai.service"

  /** The simple name of a qualified class name: what follows its last '.'. */
  function SimpleName(qualified: string): (r: string)
    ensures '.' !in r
    ensures exists i :: 0 <= i <= |qualified| && r == qualified[i..]
    decreases |qualified|
  {
    if qualified == [] then
      assert qualified[0..] == "";
      ""
    else if qualified[|qualified| - 1] == '.' then
      assert qualified[|qualified|..] == "";
      ""
    else
      var init := qualified[..|qualified| - 1];
      var r := SimpleName(init) + [qualified[|qualified| - 1]];
      var i :| 0 <= i <= |init| && SimpleName(init) == init[i..];
      assert r == qualified[i..];
      r
  }

  /**
   * determineRequestContext: the simple name of the first class on the
   * calling stack that belongs to the service package, "unknown" otherwise.
   */
  function RequestContext(stack: seq<string>): (r: string)
    ensures (forall k :: 0 <= k < |stack| ==> !Contains(stack[k], ServicePackage)) ==> r == "unknown"
    ensures !(forall k :: 0 <= k < |stack| ==> !Contains(stack[k], ServicePackage)) ==> '.' !in r
  {
    if stack == [] then "unknown"
    else if Contains(stack[0], ServicePackage) then SimpleName(stack[0])
    else
      assert forall k :: 1 <= k < |stack| ==> stack[k] == stack[1..][k - 1];
      RequestContext(stack[1..])
  }

  /**
   * The context names the first service class on the stack: a service
   * frame preceded only by other frames gives its simple name.
   */
  lemma {:induction false} RequestContextFirstService(stack: seq<string>, k: nat)
    requires k < |stack| && Contains(stack[k], ServicePackage)
    requires forall j :: 0 <= j < k ==> !Contains(stack[j], ServicePackage)
    ensures RequestContext(stack) == SimpleName(stack[k])
  {
    if k > 0 {
      assert stack[1..][k - 1] == stack[k];
      assert forall j :: 0 <= j < k - 1 ==> stack[1..][j] == stack[j + 1];
      RequestContextFirstService(stack[1..], k - 1);
    }
  }

  // ---------------------------------------------------------------------
  // logModelCall
  // ---------------------------------------------------------------------

  /** The ModelCall entity fields the advisor sets. */
  datatype ModelCall = ModelCall(
    correlationId: string,
    startTime: int,
    endTime: int,
    durationMs: int,
    apiDurationMs: int,
    processingDurationMs: int,
    success: bool,
    errorMessage: Option<string>,
    errorClass: Option<string>,
    errorStacktrace: Option<string>,
    provider: string,
    promptText: Option<string>,
    responseText: Option<string>,
    modelName: Option<string>,
    modelProvider: Option<string>,
    requestContext: string)

  /** The record saved after a call that returned. */
  function SuccessCall(correlationId: string, args: seq<Arg>, targetClass: string, context: string,
                       startTime: int, apiStart: int, apiEnd: int, endTime: int, result: CallResult): ModelCall
  {
    var prompt := ExtractPrompt(args);
    ModelCall(correlationId, startTime, endTime, endTime - startTime, apiEnd - apiStart,
      (endTime - startTime) - (apiEnd - apiStart), true, None, None, None, DetermineProvider(targetClass),
      if prompt.Some? then BuildPromptText(prompt) else None,
      if result.ChatResponse? then ResponseText(result.outputs) else None, None, None, context)
  }

  /** The record saved after a call that threw an Exception: the API end time was never taken. */
  function FailedCall(correlationId: string, targetClass: string, context: string, startTime: int, endTime: int,
                      e: Thrown): ModelCall
  {
    ModelCall(correlationId, startTime, endTime, endTime - startTime, 0, endTime - startTime, false,
      e.message, Some(e.className), Some(StackTrace(e.frames)), DetermineProvider(targetClass), None, None, None, None,
      context)
  }

  /** Where the advisor hands its records to modelCallService.saveAsync. */
  class CallLog {
    var saved: seq<ModelCall>

    constructor ()
      ensures saved == []
    {
      saved := [];
    }

    method Save(call: ModelCall)
      modifies this
      ensures saved == old(saved) + [call]
    {
      saved := saved + [call];
    }
  }

  /**
   * logModelCall: the intercepted call runs once between the API
   * timestamps; the result is returned, or the throwable rethrown,
   * unchanged. One record is saved for a returned call and for a thrown
   * Exception, none for an Error, which the advisor does not catch. No
   * configuration is ever extracted, so the record names no model. The
   * request context is read from the calling stack.
   */
  method LogModelCall(log: CallLog, correlationId: string, args: seq<Arg>, targetClass: string, stack: seq<string>,
                      startTime: int, apiStart: int, apiEnd: int, endTime: int, call: Outcome)
    returns (r: Outcome)
    modifies log
    ensures r == call
    ensures call.Returned? ==>
      log.saved == old(log.saved)
        + [SuccessCall(correlationId, args, targetClass, RequestContext(stack), startTime, apiStart, apiEnd, endTime, call.result)]
    ensures call.Threw? && call.exception.isException ==>
      log.saved == old(log.saved) + [FailedCall(correlationId, targetClass, RequestContext(stack), startTime, endTime, call.exception)]
    ensures call.Threw? && !call.exception.isException ==> log.saved == old(log.saved)
  {
    var apiStartTime: Option<int> := None;
    var prompt := ExtractPrompt(args);
    var promptText: Option<string> := None;
    if prompt.Some? {
      promptText := BuildPromptText(prompt);
    }
    var provider := DetermineProvider(targetClass);
    var context := RequestContext(stack);
    apiStartTime := Some(apiStart);
    if call.Threw? {
      var e := call.exception;
      if !e.isException {
        return call;
      }
      var totalDuration := endTime - startTime;
      // apiEndTime is still null here, so no API time is counted.
      var apiDuration := 0;
      log.Save(ModelCall(correlationId, startTime, endTime, totalDuration, apiDuration, totalDuration - apiDuration, false,
        e.message, Some(e.className), Some(StackTrace(e.frames)), DetermineProvider(targetClass), None, None, None, None,
        RequestContext(stack)));
      return call;
    }
    var apiEndTime := apiEnd;
    var responseText: Option<string> := None;
    if call.result.ChatResponse? {
      responseText := ResponseText(call.result.outputs);
    }
    var totalDuration := endTime - startTime;
    var apiDuration := apiEndTime - apiStartTime.value;
    var processingDuration := totalDuration - apiDuration;
    log.Save(ModelCall(correlationId, startTime, endTime, totalDuration, apiDuration, processingDuration, true,
      None, None, None, provider, promptText, responseText, None, None, context));
    r := call;
  }

  /** ModelCallsController.toRecord, on the fields the record's views read. */
  function RecordOf(call: ModelCall): CallRecord
  {
    CallRecord(None, Some(call.provider), Some(call.success), call.errorMessage, call.errorClass,
      Some(call.durationMs), Some(call.apiDurationMs), Some(call.processingDurationMs), call.modelName,
      call.modelProvider, None)
  }

  /**
   * The two records read back consistently: a returned call reads as
   * successful without error, its processing time the total less the API
   * time, and shown under its provider's name; a failed call reads as an
   * error with no API time, all of its time counted as processing.
   */
  lemma LoggedCallsRead(correlationId: string, args: seq<Arg>, targetClass: string, context: string,
                        startTime: int, apiStart: int, apiEnd: int, endTime: int, result: CallResult, e: Thrown)
    ensures var c := RecordOf(SuccessCall(correlationId, args, targetClass, context, startTime, apiStart, apiEnd, endTime, result));
      && WasSuccessful(c) && !HasError(c)
      && c.processingDurationMs.value + c.apiDurationMs.value == c.durationMs.value
      && c.durationMs == Some(endTime - startTime) && c.apiDurationMs == Some(apiEnd - apiStart)
      && ModelDisplayName(c) == DetermineProvider(targetClass)
    ensures var c := RecordOf(FailedCall(correlationId, targetClass, context, startTime, endTime, e));
      && !WasSuccessful(c) && HasError(c)
      && c.apiDurationMs == Some(0) && c.processingDurationMs == c.durationMs
  {
  }
}
