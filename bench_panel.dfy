/**
 * BenchPanel: the workbench where a user picks a model configuration, an
 * optional system prompt, an optional user prompt template and some
 * content, and sends the assembled prompt to the model directly.
 *
 * The network call is a parameter: its answer (or failure) is given to
 * CallModel, which records the request it would send.
 */
module BenchPanel {
  import opened Wrappers
  import opened Text
  import opened Records

  /** The fields of a stored prompt the bench reads. */
  datatype BenchPrompt = BenchPrompt(id: int, title: string, text: string)

  // ---------------------------------------------------------------------
  // Placeholder replacement: finalPrompt.replace(/\{[^}]*\}/g, content)
  // ---------------------------------------------------------------------

  /** The index of the first '}' in s at or after index k, if there is one. */
  function CloseFrom(s: string, k: nat): (r: Option<nat>)
    requires k <= |s|
    ensures r.Some? ==> k <= r.value < |s|
    decreases |s| - k
  {
    if k == |s| then None
    else if s[k] == '}' then Some(k)
    else CloseFrom(s, k + 1)
  }

  /** What CloseFrom finds is the first '}' from index k on; when it finds none there is none. */
  lemma {:induction false} CloseFound(s: string, k: nat)
    requires k <= |s|
    ensures var r := CloseFrom(s, k);
      && (r.Some? ==> s[r.value] == '}' && forall m :: k <= m < r.value ==> s[m] != '}')
      && (r.None? ==> forall m :: k <= m < |s| ==> s[m] != '}')
    decreases |s| - k
  {
    if k < |s| && s[k] != '}' {
      CloseFound(s, k + 1);
    }
  }

  /** A first '}' from index k on is what CloseFrom finds. */
  lemma {:induction false} CloseUnique(s: string, k: nat, j: nat)
    requires k <= j < |s| && s[j] == '}' && forall m :: k <= m < j ==> s[m] != '}'
    ensures CloseFrom(s, k) == Some(j)
    decreases j - k
  {
    if k < j {
      CloseUnique(s, k + 1, j);
    }
  }

  /**
   * GetSubstitution of String.prototype.replace for a regular expression
   * without capture groups: in the replacement, "$$" stands for "$", "$&"
   * for the matched text, "$`" for the text before the match and "$'" for
   * the text after it; every other '$' is kept as it is.
   */
  function Substitution(replacement: string, matched: string, before: string, after: string): string
    decreases |replacement|
  {
    if replacement == [] then []
    else
      var (piece, used) := SubstitutionStep(replacement, matched, before, after);
      piece + Substitution(replacement[used..], matched, before, after)
  }

  /**
   * The text the start of a non-empty replacement stands for, and how many
   * of its characters that consumes.
   */
  function SubstitutionStep(replacement: string, matched: string, before: string, after: string): (r: (string, nat))
    requires replacement != []
    ensures 1 <= r.1 <= |replacement|
  {
    if replacement[0] == '$' && |replacement| >= 2 then
      match replacement[1]
      case '$' => ("$", 2)
      case '&' => (matched, 2)
      case '`' => (before, 2)
      case '\'' => (after, 2)
      case _ => ("$", 1)
    else ([replacement[0]], 1)
  }

  /** A replacement without '$' is inserted as it is. */
  lemma {:induction false} PlainSubstitution(replacement: string, matched: string, before: string, after: string)
    requires '$' !in replacement
    ensures Substitution(replacement, matched, before, after) == replacement
    decreases |replacement|
  {
    if replacement != [] {
      PlainSubstitution(replacement[1..], matched, before, after);
      assert [replacement[0]] + replacement[1..] == replacement;
    }
  }

  /**
   * The length of the match of /\{[^}]*\}/ at the start of rest: from its
   * '{' to the first '}' after it; 0 when no match starts there.
   */
  function MatchLength(rest: string): (n: nat)
    requires rest != []
    ensures n <= |rest|
  {
    if rest[0] != '{' then 0
    else match CloseFrom(rest, 1)
      case Some(j) => j + 1
      case None => 0
  }

  /**
   * A match starts exactly where a '{' has a '}' somewhere after it, and
   * it runs to the first such '}', with none inside.
   */
  lemma MatchLengthMeans(rest: string)
    requires rest != []
    ensures var n := MatchLength(rest);
      && (n > 0 <==> rest[0] == '{' && exists m :: 1 <= m < |rest| && rest[m] == '}')
      && (n > 0 ==> 2 <= n && rest[n - 1] == '}' && forall m :: 1 <= m < n - 1 ==> rest[m] != '}')
  {
    CloseFound(rest, 1);
    if rest[0] == '{' && CloseFrom(rest, 1).Some? {
      var j := CloseFrom(rest, 1).value;
      assert rest[j] == '}';
    }
  }

  /**
   * Every match in rest replaced, left to right, by the replacement as
   * GetSubstitution expands it; before is the text of the whole string
   * that precedes rest, which "$`" stands for.
   */
  function ReplaceRest(rest: string, before: string, content: string): string
    decreases |rest|
  {
    if rest == [] then []
    else
      var n := MatchLength(rest);
      if n == 0 then [rest[0]] + ReplaceRest(rest[1..], before + [rest[0]], content)
      else Substitution(content, rest[..n], before, rest[n..]) + ReplaceRest(rest[n..], before + rest[..n], content)
  }

  /** finalPrompt.replace(/\{[^}]*\}/g, content) */
  function ReplacePlaceholders(s: string, content: string): string
  {
    ReplaceRest(s, [], content)
  }

  /** One step of the replacement at a match. */
  lemma MatchStep(rest: string, before: string, content: string)
    requires rest != [] && MatchLength(rest) > 0
    ensures var n := MatchLength(rest);
      ReplaceRest(rest, before, content)
        == Substitution(content, rest[..n], before, rest[n..]) + ReplaceRest(rest[n..], before + rest[..n], content)
  {
  }

  /** One step of the replacement at a character that starts no match. */
  lemma PlainStep(rest: string, before: string, content: string)
    requires rest != [] && MatchLength(rest) == 0
    ensures ReplaceRest(rest, before, content) == [rest[0]] + ReplaceRest(rest[1..], before + [rest[0]], content)
  {
  }

  /** Text without '{' is kept as it is, and joins the text before what follows it. */
  lemma {:induction false} PlainKept(a: string, b: string, before: string, content: string)
    requires '{' !in a
    ensures ReplaceRest(a + b, before, content) == a + ReplaceRest(b, before + a, content)
    decreases |a|
  {
    if a != [] {
      var s := a + b;
      var x := ReplaceRest(s[1..], before + [a[0]], content);
      var y := ReplaceRest(b, before + a, content);
      assert ReplaceRest(s, before, content) == [a[0]] + x by {
        assert s[0] == a[0];
        PlainStep(s, before, content);
      }
      assert x == a[1..] + y by {
        assert s[1..] == a[1..] + b;
        assert before + [a[0]] + a[1..] == before + a;
        PlainKept(a[1..], b, before + [a[0]], content);
      }
      assert [a[0]] + (a[1..] + y) == a + y;
    } else {
      assert a + b == b;
      assert before + a == before;
    }
  }

  /** A text without '{' has no placeholder and is left as it is. */
  lemma NoPlaceholderUnchanged(s: string, content: string)
    requires '{' !in s
    ensures ReplacePlaceholders(s, content) == s
  {
    PlainKept(s, [], [], content);
    assert s + [] == s;
  }

  /** Text before the first '{' is kept as it is. */
  lemma PlainPrefixKept(a: string, b: string, content: string)
    requires '{' !in a
    ensures ReplacePlaceholders(a + b, content) == a + ReplaceRest(b, a, content)
  {
    PlainKept(a, b, [], content);
    assert [] + a == a;
  }

  /** For a replacement without '$' the text before a match does not matter. */
  lemma {:induction false} BeforeIrrelevant(rest: string, b1: string, b2: string, content: string)
    requires '$' !in content
    ensures ReplaceRest(rest, b1, content) == ReplaceRest(rest, b2, content)
    decreases |rest|
  {
    if rest != [] {
      var n := MatchLength(rest);
      if n == 0 {
        PlainStep(rest, b1, content);
        PlainStep(rest, b2, content);
        BeforeIrrelevant(rest[1..], b1 + [rest[0]], b2 + [rest[0]], content);
      } else {
        MatchStep(rest, b1, content);
        MatchStep(rest, b2, content);
        PlainSubstitution(content, rest[..n], b1, rest[n..]);
        PlainSubstitution(content, rest[..n], b2, rest[n..]);
        BeforeIrrelevant(rest[n..], b1 + rest[..n], b2 + rest[..n], content);
      }
    }
  }

  /** `{name}` followed by b, with no '}' in the name, opens with a match that is exactly `{name}`. */
  lemma ClosingBrace(name: string, b: string)
    requires '}' !in name
    ensures var rest := ['{'] + name + ['}'] + b;
      && MatchLength(rest) == |name| + 2
      && rest[..|name| + 2] == ['{'] + name + ['}'] && rest[|name| + 2..] == b
  {
    var rest := ['{'] + name + ['}'] + b;
    assert rest[|name| + 1] == '}';
    assert forall m :: 1 <= m < |name| + 1 ==> rest[m] == name[m - 1];
    CloseUnique(rest, 1, |name| + 1);
  }

  /**
   * A placeholder `{name}` after text without '{' is replaced by the
   * content as GetSubstitution expands it, with the text before and after
   * the placeholder as "$`" and "$'", whatever the name holds other than
   * '}' (other '{' included).
   */
  lemma PlaceholderExpanded(a: string, name: string, b: string, content: string)
    requires '{' !in a && '}' !in name
    ensures ReplacePlaceholders(a + ['{'] + name + ['}'] + b, content)
        == a + Substitution(content, ['{'] + name + ['}'], a, b) + ReplaceRest(b, a + ['{'] + name + ['}'], content)
  {
    var m := ['{'] + name + ['}'];
    var rest := m + b;
    var x := Substitution(content, m, a, b);
    var y := ReplaceRest(b, a + m, content);
    assert a + ['{'] + name + ['}'] + b == a + rest;
    assert ReplaceRest(a + rest, [], content) == a + ReplaceRest(rest, a, content) by {
      PlainKept(a, rest, [], content);
      assert [] + a == a;
    }
    assert ReplaceRest(rest, a, content) == x + y by {
      ClosingBrace(name, b);
      MatchStep(rest, a, content);
    }
    assert a + (x + y) == a + x + y;
    assert a + m == a + ['{'] + name + ['}'];
    assert ReplacePlaceholders(a + ['{'] + name + ['}'] + b, content) == ReplaceRest(a + rest, [], content);
  }

  /**
   * For content without '$', a placeholder `{name}` is replaced by the
   * content itself, and the rest of the text is replaced on its own.
   */
  lemma PlaceholderReplaced(a: string, name: string, b: string, content: string)
    requires '{' !in a && '}' !in name && '$' !in content
    ensures ReplacePlaceholders(a + ['{'] + name + ['}'] + b, content) == a + content + ReplacePlaceholders(b, content)
  {
    PlaceholderExpanded(a, name, b, content);
    PlainSubstitution(content, ['{'] + name + ['}'], a, b);
    BeforeIrrelevant(b, a + ['{'] + name + ['}'], [], content);
  }

  /** '$' patterns in the content are expanded: the content "$&" puts the placeholder itself back. */
  lemma DollarAmpersandKeepsPlaceholder()
    ensures ReplacePlaceholders("{x}", "$&") == "{x}"
  {
    ReplaceOneBrace("x", "$&");
    SubstituteMatched();
  }

  /**
   * With the content "$&", the template "{x}" stays "{x}" and, the content
   * not being found in it, the content is appended after a blank line.
   */
  lemma DollarAmpersandAppended()
    ensures Assembled(None, Some(BenchPrompt(0, "t", "{x}")), "$&") == "{x}\n\n$&"
  {
    assert Prefix(None) + "{x}" == "{x}";
    DollarAmpersandKeepsPlaceholder();
    PlaceholderLacksPattern();
  }

  /** "$&" does not occur in "{x}". */
  lemma PlaceholderLacksPattern()
    ensures !Contains("{x}", "$&")
  {
    var t := "{x}";
    assert t[0] == '{' && t[1] == 'x';
    forall i | 0 <= i <= 1 ensures !OccursAt(t, "$&", i) {
      assert t[i..i + 2][0] == t[i];
    }
  }

  /** "$$" in the content stands for a single '$'. */
  lemma DoubleDollarCollapses()
    ensures ReplacePlaceholders("{x}", "$$5") == "$5"
  {
    ReplaceOneBrace("x", "$$5");
    assert "$$5"[2..] == "5" && "5"[1..] == [];
    assert Substitution("5", "{x}", [], []) == "5";
  }

  /** A text that is one placeholder is replaced by one substitution, with nothing around it. */
  lemma ReplaceOneBrace(name: string, content: string)
    requires '}' !in name
    ensures ReplacePlaceholders(['{'] + name + ['}'], content) == Substitution(content, ['{'] + name + ['}'], [], [])
  {
    PlaceholderExpanded([], name, [], content);
    assert [] + ['{'] + name + ['}'] + [] == ['{'] + name + ['}'];
    assert ReplaceRest([], [] + ['{'] + name + ['}'], content) == [];
  }

  /** "$&" alone substitutes the matched text. */
  lemma SubstituteMatched()
    ensures Substitution("$&", "{x}", [], []) == "{x}"
  {
    assert "$&"[2..] == [];
  }

  // ---------------------------------------------------------------------
  // buildFinalPrompt
  // ---------------------------------------------------------------------

  /** The tagged system text. */
  function SystemHead(system: BenchPrompt): string
  {
    "<system>\n" + system.text + "\n</system>"
  }

  /** The block a selected system prompt contributes: `<system>\n${text}\n</system>\n\n`. */
  function SystemBlock(system: BenchPrompt): string
  {
    SystemHead(system) + "\n\n"
  }

  /** The block a system prompt contributes, if one is selected. */
  function Prefix(system: Option<BenchPrompt>): string
  {
    if system.Some? then SystemBlock(system.value) else ""
  }

  /** The assembled prompt before its final trim, for the trimmed content. */
  function Assembled(system: Option<BenchPrompt>, user: Option<BenchPrompt>, content: string): string
  {
    var prefix := Prefix(system);
    if user.Some? then
      if content != [] then
        var replaced := ReplacePlaceholders(prefix + user.value.text, content);
        if Contains(replaced, content) then replaced else replaced + "\n\n" + content
      else prefix + user.value.text
    else if content != [] then prefix + content
    else prefix
  }

  /** The prompt buildFinalPrompt produces. */
  function FinalPrompt(system: Option<BenchPrompt>, user: Option<BenchPrompt>, userContent: string): string
  {
    Trim(Assembled(system, user, Trim(userContent, IsJsSpace)), IsJsSpace)
  }

  /** buildFinalPrompt */
  method BuildFinalPrompt(system: Option<BenchPrompt>, user: Option<BenchPrompt>, userContent: string)
    returns (r: string)
    ensures r == FinalPrompt(system, user, userContent)
  {
    var content := Trim(userContent, IsJsSpace);
    var finalPrompt := AssemblePrompt(system, user, content);
    r := Trim(finalPrompt, IsJsSpace);
  }

  /** buildFinalPrompt's steps before the final trim, for the trimmed content. */
  method AssemblePrompt(system: Option<BenchPrompt>, user: Option<BenchPrompt>, content: string)
    returns (finalPrompt: string)
    ensures finalPrompt == Assembled(system, user, content)
  {
    finalPrompt := "";
    if system.Some? {
      finalPrompt := finalPrompt + SystemBlock(system.value);
    }
    assert finalPrompt == Prefix(system);
    if user.Some? {
      finalPrompt := finalPrompt + user.value.text;
      if content != [] {
        finalPrompt := ReplacePlaceholders(finalPrompt, content);
        if !Contains(finalPrompt, content) {
          finalPrompt := finalPrompt + "\n\n" + content;
        }
      }
    } else if content != [] {
      finalPrompt := finalPrompt + content;
    }
  }

  /** The content occurs in the assembled prompt whenever it is not empty. */
  lemma AssembledHoldsContent(system: Option<BenchPrompt>, user: Option<BenchPrompt>, content: string)
    requires content != []
    ensures Contains(Assembled(system, user, content), content)
  {
    var prefix := Prefix(system);
    if user.Some? {
      var replaced := ReplacePlaceholders(prefix + user.value.text, content);
      if !Contains(replaced, content) {
        var a := replaced + "\n\n" + content;
        assert OccursAt(a, content, |a| - |content|);
      }
    } else {
      assert OccursAt(prefix + content, content, |prefix|);
    }
  }

  /**
   * Content that is not blank always reaches the model: its trimmed form
   * occurs in the final prompt, with a template or without, placeholders
   * or none.
   */
  lemma ContentAlwaysSent(system: Option<BenchPrompt>, user: Option<BenchPrompt>, userContent: string)
    requires Trim(userContent, IsJsSpace) != []
    ensures Contains(FinalPrompt(system, user, userContent), Trim(userContent, IsJsSpace))
  {
    var content := Trim(userContent, IsJsSpace);
    TrimEndsVisible(userContent, IsJsSpace);
    AssembledHoldsContent(system, user, content);
    TrimKeepsInner(Assembled(system, user, content), content, IsJsSpace);
  }

  /** The tagged system text opens with '<', closes with '>', and has a '{' only if the text has. */
  lemma SystemHeadShape(system: BenchPrompt)
    ensures var h := SystemHead(system);
      && |h| > 0 && h[0] == '<' && h[|h| - 1] == '>'
      && ('{' !in system.text ==> '{' !in h)
  {
  }

  /** Trimming keeps a head that begins and ends with a visible character. */
  lemma TrimKeepsHead(h: string, rest: string, isSpace: char -> bool)
    requires h != [] && !isSpace(h[0]) && !isSpace(h[|h| - 1])
    ensures StartsWith(Trim(h + rest, isSpace), h)
  {
    var a := h + rest;
    assert a[0] == h[0] && a[|h| - 1] == h[|h| - 1];
    assert TrimStart(a, isSpace) == a;
    TrimEndKeepsVisible(a, |h| - 1, isSpace);
    var u := TrimEnd(a, isSpace);
    assert u[..|h|] == a[..|h|] == h;
  }

  /**
   * The assembled prompt opens with the tagged system text when the system
   * text has no '{'; rest is what follows it.
   */
  lemma AssembledOpensWithSystem(system: BenchPrompt, user: Option<BenchPrompt>, content: string)
    returns (rest: string)
    requires '{' !in system.text
    ensures Assembled(Some(system), user, content) == SystemHead(system) + rest
  {
    var h := SystemHead(system);
    SystemHeadShape(system);
    if user.Some? {
      var text := user.value.text;
      assert SystemBlock(system) + text == h + ("\n\n" + text);
      if content != [] {
        PlainPrefixKept(h, "\n\n" + text, content);
        var r := ReplaceRest("\n\n" + text, h, content);
        assert ReplacePlaceholders(SystemBlock(system) + text, content) == h + r;
        assert (h + r) + "\n\n" + content == h + (r + "\n\n" + content);
        rest := if Contains(h + r, content) then r else r + "\n\n" + content;
      } else {
        rest := "\n\n" + text;
      }
    } else {
      assert SystemBlock(system) + content == h + ("\n\n" + content);
      rest := "\n\n" + content;
    }
  }

  /**
   * A selected system prompt without braces opens the final prompt with its
   * block, "<system>\n" + text + "\n</system>", whatever follows.
   */
  lemma SystemBlockFirst(system: BenchPrompt, user: Option<BenchPrompt>, userContent: string)
    requires '{' !in system.text
    ensures StartsWith(FinalPrompt(Some(system), user, userContent), "<system>\n" + system.text + "\n</system>")
  {
    var content := Trim(userContent, IsJsSpace);
    var h := SystemHead(system);
    var rest := AssembledOpensWithSystem(system, user, content);
    SystemHeadShape(system);
    assert !IsJsSpace(h[0]) && !IsJsSpace(h[|h| - 1]);
    TrimKeepsHead(h, rest, IsJsSpace);
  }

  /** With no prompt selected and blank content the final prompt is empty, so nothing is sent. */
  lemma NothingToSend(userContent: string)
    requires IsBlankJs(userContent)
    ensures FinalPrompt(None, None, userContent) == ""
  {
    TrimEmptyIffAllSpace(userContent, IsJsSpace);
  }

  /** With neither prompt selected, the model is sent the trimmed content alone. */
  lemma ContentOnlyPrompt(userContent: string)
    ensures FinalPrompt(None, None, userContent) == Trim(userContent, IsJsSpace)
  {
    var content := Trim(userContent, IsJsSpace);
    assert Assembled(None, None, content) == content by {
      assert "" + content == content;
    }
    TrimIdempotent(userContent, IsJsSpace);
  }

  // ---------------------------------------------------------------------
  // callModel and resetForm
  // ---------------------------------------------------------------------

  /** What directModelCall answers. */
  datatype DirectResponse = DirectResponse(
    success: bool, response: Option<string>, responseMetadata: Option<Json>, errorMessage: Option<string>)

  /** The JSON values JavaScript counts as false: null, false, zero, NaN and the empty string. */
  predicate Falsy(v: Json)
  {
    || v.JNull? || v == JBool(false) || v == JText("") || v == JInt(0) || v == JLong(0)
    || (v.JDouble? && v.d.text in {"0.0", "-0.0", "NaN"})
  }

  /**
   * `response.responseMetadata || null`: metadata the answer left out, or
   * a falsy value, becomes null (no metadata); any other value is kept.
   */
  function MetadataOrNull(m: Option<Json>): (r: Option<Json>)
    ensures r.Some? <==> m.Some? && !Falsy(m.value)
    ensures r.Some? ==> r == m
  {
    if m.Some? && !Falsy(m.value) then m else None
  }

  /** How directModelCall ended: an answer, or a thrown error with its response's and its own message. */
  datatype CallOutcome = Answered(answer: DirectResponse) | Failed(dataMessage: Option<string>, message: Option<string>)

  const NoConfigError: string := "Please select a model configuration"
  const NoContentError: string := "Please provide some content to send to the model"

  /** The bench's state. */
  class Bench {
    var selectedConfigId: Option<int>
    var selectedSystemPrompt: Option<BenchPrompt>
    var selectedUserPrompt: Option<BenchPrompt>
    var userContent: string
    var isLoading: bool
    var modelResponse: string
    var hasCallDetails: bool
    var responseMetadata: Option<Json>
    var error: Option<string>
    /** The (configuration id, prompt) pairs sent to directModelCall. */
    var sent: seq<(int, string)>

    constructor ()
      ensures selectedConfigId.None? && selectedSystemPrompt.None? && selectedUserPrompt.None? && userContent == ""
      ensures !isLoading && modelResponse == "" && !hasCallDetails && responseMetadata.None? && error.None? && sent == []
    {
      selectedConfigId := None;
      selectedSystemPrompt := None;
      selectedUserPrompt := None;
      userContent := "";
      isLoading := false;
      modelResponse := "";
      hasCallDetails := false;
      responseMetadata := None;
      error := None;
      sent := [];
    }

    /** What the page shows once directModelCall has ended with the given outcome. */
    predicate Shows(outcome: CallOutcome)
      reads this
    {
      match outcome
      case Answered(answer) =>
        if answer.success then
          error.None? && modelResponse == OrElse(answer.response, "") && hasCallDetails
          && responseMetadata == MetadataOrNull(answer.responseMetadata)
        else
          error == Some(OrElse(answer.errorMessage, "Model call failed")) && modelResponse == ""
          && !hasCallDetails && responseMetadata.None?
      case Failed(dataMessage, message) =>
        error == Some(OrElse(dataMessage, OrElse(message, "Failed to call model")))
        && modelResponse == "" && !hasCallDetails && responseMetadata.None?
    }

    /**
     * callModel: without a configuration (none, or id 0), or when the
     * built prompt is empty, it records an error and sends nothing.
     * Otherwise it sends the prompt once and shows the answer, or the
     * answer's error, or the failure's message, and stops loading.
     */
    method CallModel(outcome: CallOutcome)
      modifies this
      ensures selectedConfigId == old(selectedConfigId) && selectedSystemPrompt == old(selectedSystemPrompt)
      ensures selectedUserPrompt == old(selectedUserPrompt) && userContent == old(userContent)
      ensures old(selectedConfigId).None? || old(selectedConfigId).value == 0 ==>
        error == Some(NoConfigError) && sent == old(sent) && modelResponse == old(modelResponse)
        && isLoading == old(isLoading) && hasCallDetails == old(hasCallDetails)
        && responseMetadata == old(responseMetadata)
      ensures var prompt := FinalPrompt(old(selectedSystemPrompt), old(selectedUserPrompt), old(userContent));
        old(selectedConfigId).Some? && old(selectedConfigId).value != 0 && prompt == "" ==>
          error == Some(NoContentError) && sent == old(sent) && modelResponse == old(modelResponse)
          && isLoading == old(isLoading) && hasCallDetails == old(hasCallDetails)
          && responseMetadata == old(responseMetadata)
      ensures var prompt := FinalPrompt(old(selectedSystemPrompt), old(selectedUserPrompt), old(userContent));
        old(selectedConfigId).Some? && old(selectedConfigId).value != 0 && prompt != "" ==>
          sent == old(sent) + [(old(selectedConfigId).value, prompt)] && !isLoading && Shows(outcome)
    {
      if selectedConfigId.None? || selectedConfigId.value == 0 {
        error := Some(NoConfigError);
        return;
      }
      var finalPrompt := BuildFinalPrompt(selectedSystemPrompt, selectedUserPrompt, userContent);
      if finalPrompt == "" {
        error := Some(NoContentError);
        return;
      }
      Send(selectedConfigId.value, finalPrompt, outcome);
    }

    /** callModel once both checks pass: clear the last result, send the prompt, show the outcome. */
    method Send(configId: int, finalPrompt: string, outcome: CallOutcome)
      modifies this
      ensures sent == old(sent) + [(configId, finalPrompt)] && !isLoading && Shows(outcome)
      ensures selectedConfigId == old(selectedConfigId) && selectedSystemPrompt == old(selectedSystemPrompt)
      ensures selectedUserPrompt == old(selectedUserPrompt) && userContent == old(userContent)
    {
      isLoading := true;
      error := None;
      modelResponse := "";
      hasCallDetails := false;
      responseMetadata := None;
      sent := sent + [(configId, finalPrompt)];
      Receive(outcome);
    }

    /** The try/catch/finally of callModel: show the outcome, then stop loading. */
    method Receive(outcome: CallOutcome)
      requires error.None? && modelResponse == "" && !hasCallDetails && responseMetadata.None?
      modifies this
      ensures Shows(outcome) && !isLoading
      ensures selectedConfigId == old(selectedConfigId) && selectedSystemPrompt == old(selectedSystemPrompt)
      ensures selectedUserPrompt == old(selectedUserPrompt) && userContent == old(userContent) && sent == old(sent)
    {
      match outcome {
        case Answered(response) =>
          if response.success {
            modelResponse := OrElse(response.response, "");
            responseMetadata := MetadataOrNull(response.responseMetadata);
            hasCallDetails := true;
          } else {
            error := Some(OrElse(response.errorMessage, "Model call failed"));
          }
        case Failed(dataMessage, message) =>
          error := Some(OrElse(dataMessage, OrElse(message, "Failed to call model")));
      }
      isLoading := false;
    }

    /** resetForm: everything the user entered or received is cleared; the configuration stays. */
    method ResetForm()
      modifies this
      ensures selectedSystemPrompt.None? && selectedUserPrompt.None? && userContent == ""
      ensures modelResponse == "" && !hasCallDetails && responseMetadata.None? && error.None?
      ensures selectedConfigId == old(selectedConfigId) && sent == old(sent) && isLoading == old(isLoading)
    {
      selectedSystemPrompt := None;
      selectedUserPrompt := None;
      userContent := "";
      modelResponse := "";
      hasCallDetails := false;
      responseMetadata := None;
      error := None;
    }
  }
}
