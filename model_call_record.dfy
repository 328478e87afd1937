/**
 * ModelCallRecord: the logged model call as the call explorer receives it,
 * and the views it derives from its fields: success and error flags, the
 * model's display name, the duration texts and the token-usage summary.
 */
module ModelCallRecord {
  import opened Wrappers
  import opened Text
  import opened Records
  import opened ItemEntity

  /** The fields of a ModelCallRecord that its views read (null fields are None). */
  datatype CallRecord = CallRecord(
    id: Option<int>,
    provider: Option<string>,
    success: Option<bool>,
    errorMessage: Option<string>,
    errorClass: Option<string>,
    durationMs: Option<int>,
    apiDurationMs: Option<int>,
    processingDurationMs: Option<int>,
    modelName: Option<string>,
    modelProvider: Option<string>,
    tokenUsage: Option<Json>)

  /** wasSuccessful: a Boolean that is set and true. */
  predicate WasSuccessful(c: CallRecord)
  {
    c.success == Some(true)
  }

  /** hasError */
  predicate HasError(c: CallRecord)
  {
    !WasSuccessful(c) && (c.errorMessage.Some? || c.errorClass.Some?)
  }

  /**
   * A successful call never reports an error; an unsuccessful or unknown
   * outcome reports one exactly when a message or an error class was
   * recorded.
   */
  lemma ErrorOnlyWhenUnsuccessful(c: CallRecord)
    ensures WasSuccessful(c) <==> c.success.Some? && c.success.value
    ensures WasSuccessful(c) ==> !HasError(c)
    ensures c.success != Some(true) ==> (HasError(c) <==> c.errorMessage.Some? || c.errorClass.Some?)
  {
  }

  /** getModelDisplayName */
  function ModelDisplayName(c: CallRecord): (r: string)
    ensures c.modelName.Some? && c.modelProvider.Some? ==> r == c.modelName.value + " (" + c.modelProvider.value + ")"
    ensures c.modelName.Some? && c.modelProvider.None? ==> r == c.modelName.value
    ensures c.modelName.None? && c.provider.Some? ==> r == c.provider.value
    ensures c.modelName.None? && c.provider.None? ==> r == "Unknown Model"
  {
    if c.modelName.Some? && c.modelProvider.Some? then c.modelName.value + " (" + c.modelProvider.value + ")"
    else if c.modelName.Some? then c.modelName.value
    else if c.provider.Some? then c.provider.value
    else "Unknown Model"
  }

  /** Two decimal digits of n < 100, with a leading zero. */
  function TwoDigits(n: nat): (r: string)
    requires n < 100
    ensures |r| == 2 && IsDigit(r[0]) && IsDigit(r[1])
  {
    [DigitChar(n / 10), DigitChar(n % 10)]
  }

  /** The hundredths of a second that `%.2f` shows for ms / 1000.0, rounding half up. */
  function Hundredths(ms: nat): nat
  {
    (ms + 5) / 10
  }

  /** String.format("%.2fs", ms / 1000.0) for a whole number of milliseconds. */
  function SecondsText(ms: nat): string
  {
    var h := Hundredths(ms);
    NatToString(h / 100) + "." + TwoDigits(h % 100) + "s"
  }

  /** getFormattedDuration */
  function FormattedDuration(durationMs: Option<int>): string
  {
    match durationMs
    case None => "Unknown"
    case Some(d) => if d < 1000 then IntToString(d) + "ms" else SecondsText(d)
  }

  /**
   * Under a second the duration is its own decimal rendering followed by
   * "ms", which reads back as the duration.
   */
  lemma MillisecondsReadBack(d: nat)
    requires d < 1000
    ensures var t := FormattedDuration(Some(d));
      && t == NatToString(d) + "ms"
      && AllDigits(t[..|t| - 2]) && DigitsValue(t[..|t| - 2]) == d
  {
    var t := FormattedDuration(Some(d));
    assert t[..|t| - 2] == NatToString(d);
    DigitsValueOfNatToString(d);
  }

  /**
   * From a second on, the text is seconds with two decimals: the shown
   * hundredths h are the duration rounded half up, 10h - 5 <= d < 10h + 5.
   */
  lemma SecondsRounded(d: nat)
    requires d >= 1000
    ensures var h := Hundredths(d);
      && 10 * h - 5 <= d < 10 * h + 5
      && h >= 100
      && FormattedDuration(Some(d)) == NatToString(h / 100) + "." + TwoDigits(h % 100) + "s"
  {
  }

  /** getPerformanceBreakdown */
  function PerformanceBreakdown(c: CallRecord): (r: string)
    ensures c.apiDurationMs.None? || c.processingDurationMs.None? ==> r == FormattedDuration(c.durationMs)
    ensures c.apiDurationMs.Some? && c.processingDurationMs.Some? ==>
      r == "Total: " + FormattedDuration(c.durationMs) + " (API: " + IntToString(c.apiDurationMs.value)
        + "ms, Processing: " + IntToString(c.processingDurationMs.value) + "ms)"
  {
    if c.apiDurationMs.None? || c.processingDurationMs.None? then FormattedDuration(c.durationMs)
    else
      "Total: " + FormattedDuration(c.durationMs) + " (API: " + IntToString(c.apiDurationMs.value)
        + "ms, Processing: " + IntToString(c.processingDurationMs.value) + "ms)"
  }

  /** A formatted duration opens with a digit, a '-' or "Unknown", never with "Total: ". */
  lemma DurationNotTotal(durationMs: Option<int>)
    ensures !StartsWith(FormattedDuration(durationMs), "Total: ")
  {
    var t := FormattedDuration(durationMs);
    if durationMs.Some? {
      var d := durationMs.value;
      if d < 1000 {
        IntToStringChars(d);
        assert t[0] == IntToString(d)[0];
      } else {
        assert t[0] == NatToString(Hundredths(d) / 100)[0];
      }
    }
    assert t != [] && t[0] != 'T';
    assert |t| >= 7 ==> t[..7][0] == t[0];
  }

  /**
   * The breakdown names the total, API and processing times exactly when
   * both partial times are known; otherwise it is the formatted duration
   * alone.
   */
  lemma BreakdownShowsTimes(c: CallRecord)
    ensures StartsWith(PerformanceBreakdown(c), "Total: ") <==> c.apiDurationMs.Some? && c.processingDurationMs.Some?
    ensures !StartsWith(PerformanceBreakdown(c), "Total: ") ==> PerformanceBreakdown(c) == FormattedDuration(c.durationMs)
  {
    DurationNotTotal(c.durationMs);
  }

  /** A decimal rendering is made of digits and a possible leading '-'. */
  lemma IntToStringChars(i: int)
    ensures forall k :: 0 <= k < |IntToString(i)| ==> IsDigit(IntToString(i)[k]) || IntToString(i)[k] == '-'
  {
    if i < 0 {
      var d := NatToString(-i);
      assert forall k :: 1 <= k < |IntToString(i)| ==> IntToString(i)[k] == d[k - 1];
    }
  }

  /**
   * A number between a text ending in a space and a common tail can be
   * read back: equal texts have equal heads and equal numbers.
   */
  lemma NumberAfterSpace(x1: string, x2: string, a: int, b: int, tail: string)
    requires x1 != [] && x1[|x1| - 1] == ' ' && x2 != [] && x2[|x2| - 1] == ' '
    requires x1 + IntToString(a) + tail == x2 + IntToString(b) + tail
    ensures x1 == x2 && a == b
  {
    var u1, u2 := x1 + IntToString(a), x2 + IntToString(b);
    assert (u1 + tail)[..|u1|] == u1;
    assert (u2 + tail)[..|u2|] == u2;
    assert u1 == u2;
    IntToStringChars(a);
    IntToStringChars(b);
    var n1, n2 := IntToString(a), IntToString(b);
    assert u1[|x1| - 1] == ' ' && u2[|x2| - 1] == ' ';
    if |n1| != |n2| {
      assert false;
    }
    assert u1[..|x1|] == x1 && u2[..|x2|] == x2;
    assert u1[|x1|..] == n1 && u2[|x2|..] == n2;
    IntToStringInjective(a, b);
  }

  /**
   * The breakdown reads back: two records with API and processing times
   * that get the same breakdown have the same total text and the same API
   * and processing times.
   */
  lemma BreakdownReadsBack(c1: CallRecord, c2: CallRecord)
    requires c1.apiDurationMs.Some? && c1.processingDurationMs.Some?
    requires c2.apiDurationMs.Some? && c2.processingDurationMs.Some?
    requires PerformanceBreakdown(c1) == PerformanceBreakdown(c2)
    ensures FormattedDuration(c1.durationMs) == FormattedDuration(c2.durationMs)
    ensures c1.apiDurationMs == c2.apiDurationMs && c1.processingDurationMs == c2.processingDurationMs
  {
    var y1 := "Total: " + FormattedDuration(c1.durationMs) + " (API: ";
    var y2 := "Total: " + FormattedDuration(c2.durationMs) + " (API: ";
    var x1 := y1 + IntToString(c1.apiDurationMs.value) + "ms, Processing: ";
    var x2 := y2 + IntToString(c2.apiDurationMs.value) + "ms, Processing: ";
    NumberAfterSpace(x1, x2, c1.processingDurationMs.value, c2.processingDurationMs.value, "ms)");
    NumberAfterSpace(y1, y2, c1.apiDurationMs.value, c2.apiDurationMs.value, "ms, Processing: ");
    assert y1[7..|y1| - 7] == FormattedDuration(c1.durationMs);
    assert y2[7..|y2| - 7] == FormattedDuration(c2.durationMs);
  }

  /** The part of the summary for one usage key, if the usage has it. */
  function UsagePart(usage: Json, key: string, caption: string): seq<string>
  {
    if Has(usage, key) then [caption + IntToString(AsInt(usage.fields[key]))] else []
  }

  /** The parts of the token-usage summary: one per key the usage has, in key order. */
  function UsageParts(usage: Option<Json>): (parts: seq<string>)
    ensures usage.None? ==> parts == []
    ensures |parts| <= 3
  {
    match usage
    case None => []
    case Some(u) =>
      UsagePart(u, "promptTokens", "Prompt: ") + UsagePart(u, "completionTokens", "Completion: ")
        + UsagePart(u, "totalTokens", "Total: ")
  }

  /** The appends of getTokenUsageSummary for one key: a separator first unless the summary is still empty. */
  method AppendPart(summary: string, usage: Json, key: string, caption: string) returns (summary': string)
    ensures summary' == if !Has(usage, key) then summary
      else if summary == [] then UsagePart(usage, key, caption)[0]
      else summary + ", " + UsagePart(usage, key, caption)[0]
  {
    summary' := summary;
    if Has(usage, key) {
      if |summary'| > 0 {
        summary' := summary' + ", ";
      }
      summary' := summary' + caption + IntToString(AsInt(usage.fields[key]));
    }
  }

  /**
   * getTokenUsageSummary: null without usage or when the usage has none of
   * the three keys; otherwise the present parts joined by ", ".
   */
  method TokenUsageSummary(usage: Option<Json>) returns (r: Option<string>)
    ensures r == if UsageParts(usage) == [] then None else Some(Join(UsageParts(usage), ", "))
  {
    if usage.None? {
      return None;
    }
    var u := usage.value;
    var summary := "";
    summary := AppendPart(summary, u, "promptTokens", "Prompt: ");
    assert summary == Join(UsagePart(u, "promptTokens", "Prompt: "), ", ");
    var before := UsagePart(u, "promptTokens", "Prompt: ");
    summary := AppendPart(summary, u, "completionTokens", "Completion: ");
    JoinPart(before, u, "completionTokens", "Completion: ");
    before := before + UsagePart(u, "completionTokens", "Completion: ");
    summary := AppendPart(summary, u, "totalTokens", "Total: ");
    JoinPart(before, u, "totalTokens", "Total: ");
    before := before + UsagePart(u, "totalTokens", "Total: ");
    assert before == UsageParts(usage);
    r := if |summary| > 0 then Some(summary) else None;
    if before != [] {
      JoinNonEmpty(before);
    }
  }

  /** Joining one more part extends the joined text as AppendPart does. */
  lemma JoinPart(parts: seq<string>, usage: Json, key: string, caption: string)
    ensures var p := UsagePart(usage, key, caption);
      Join(parts + p, ", ") == if p == [] then Join(parts, ", ")
        else if parts == [] then p[0]
        else Join(parts, ", ") + ", " + p[0]
  {
    var p := UsagePart(usage, key, caption);
    if p == [] {
      assert parts + p == parts;
    } else {
      JoinAppend(parts, p[0], ", ");
    }
  }

  /** Every part is non-empty, so a join of at least one part is non-empty. */
  lemma JoinNonEmpty(parts: seq<string>)
    requires parts != [] && parts[0] != []
    ensures Join(parts, ", ") != []
  {
  }

  /**
   * The summary is null exactly when there is no usage or it has none of
   * the three keys, and it lists at most three parts.
   */
  lemma UsageSummaryAbsent(usage: Option<Json>)
    ensures UsageParts(usage) == [] <==>
      usage.None? || (!Has(usage.value, "promptTokens") && !Has(usage.value, "completionTokens") && !Has(usage.value, "totalTokens"))
    ensures usage.Some? && Has(usage.value, "promptTokens") ==>
      UsageParts(usage)[0] == "Prompt: " + IntToString(AsInt(usage.value.fields["promptTokens"]))
  {
  }
}
