/**
 * ModelCallExplorer: the page that lists logged model calls. It keeps a
 * selection of at most two calls for a side-by-side comparison, pages
 * through the calls, and shows each call's duration.
 */
module CallExplorer {
  import opened Wrappers
  import opened Text
  import opened Seqs
  import opened ModelCallRecord

  /** A row of the calls table: the call's id and its record. */
  datatype CallRow = CallRow(id: int, record: CallRecord)

  /** What the calls endpoint answers: the failed calls as a plain list, or one page of all calls. */
  datatype CallsResult = CallList(calls: seq<CallRow>) | CallPage(content: seq<CallRow>, totalPages: int)

  /** What loadData can catch: an Error object, with its message, or any other thrown value. */
  datatype Thrown = ErrorObject(message: string) | OtherValue

  /** The error text loadData shows for what it caught. */
  function LoadErrorText(thrown: Thrown): (r: string)
    ensures thrown.ErrorObject? ==> r == thrown.message
    ensures thrown.OtherValue? ==> r == "Failed to load model calls"
  {
    match thrown
    case ErrorObject(message) => message
    case OtherValue => "Failed to load model calls"
  }

  // ---------------------------------------------------------------------
  // A JavaScript Set of ids: distinct, in insertion order
  // ---------------------------------------------------------------------

  /** Set.delete */
  function Without(s: seq<int>, x: int): (r: seq<int>)
    ensures forall y :: y in r <==> y in s && y != x
    ensures Distinct(s) ==> Distinct(r)
    ensures |r| <= |s|
    ensures x !in s ==> r == s
  {
    if s == [] then []
    else if s[0] == x then Without(s[1..], x)
    else
      var rest := Without(s[1..], x);
      assert Distinct(s) ==> s[0] !in rest;
      [s[0]] + rest
  }

  /** Set.add: a new id goes last, an id already held stays where it is. */
  function With(s: seq<int>, x: int): (r: seq<int>)
    ensures forall y :: y in r <==> y in s || y == x
    ensures Distinct(s) ==> Distinct(r)
  {
    if x in s then s else s + [x]
  }

  /**
   * The selection after a checkbox change: checking a call while two are
   * held first evicts the earliest-selected one; unchecking removes that
   * call only.
   */
  function Selecting(prev: seq<int>, callId: int, isSelected: bool): seq<int>
  {
    if isSelected then With(if |prev| >= 2 then Without(prev, prev[0]) else prev, callId)
    else Without(prev, callId)
  }

  /** The selection the comparison needs: distinct ids, at most two. */
  predicate SelectionValid(selected: seq<int>)
  {
    Distinct(selected) && |selected| <= 2
  }

  /**
   * A selection change keeps at most two distinct ids. Checking holds the
   * call afterwards and brings in no other id; with two held, the earlier
   * one is evicted unless it is the call checked, and the later one stays.
   * Unchecking removes exactly that call.
   */
  lemma SelectionBounded(prev: seq<int>, callId: int, isSelected: bool)
    requires SelectionValid(prev)
    ensures var r := Selecting(prev, callId, isSelected);
      && SelectionValid(r)
      && (isSelected ==> callId in r && forall y :: y in r ==> y == callId || y in prev)
      && (isSelected && |prev| == 2 ==> (prev[0] in r <==> prev[0] == callId) && prev[1] in r)
      && (!isSelected ==> forall y :: y in r <==> y in prev && y != callId)
  {
    if isSelected && |prev| == 2 {
      var kept := Without(prev, prev[0]);
      assert prev[1] in kept;
      assert forall y :: y in kept ==> y == prev[1];
      assert kept == [prev[1]] by {
        assert kept == [prev[1]] + Without(prev[2..], prev[0]);
        assert prev[2..] == [];
      }
    }
  }

  /**
   * With calls a then b selected, checking b again leaves b alone, while
   * checking a again evicts a and re-adds it after b.
   */
  lemma ReselectHeld(a: int, b: int)
    requires a != b
    ensures Selecting([a, b], b, true) == [b]
    ensures Selecting([a, b], a, true) == [b, a]
  {
    assert [a, b][1..] == [b] && [b][1..] == [];
    assert Without([a, b], a) == [b];
  }

  /** Set(ids of the first two rows): what the header checkbox selects. */
  function FirstTwoIds(calls: seq<CallRow>): (r: seq<int>)
    ensures SelectionValid(r)
    ensures forall k :: 0 <= k < |calls| && k < 2 ==> calls[k].id in r
    ensures forall y :: y in r ==> exists k :: 0 <= k < |calls| && k < 2 && calls[k].id == y
  {
    if calls == [] then []
    else if |calls| == 1 then [calls[0].id]
    else With([calls[0].id], calls[1].id)
  }

  /** Whether a call's id is selected. */
  function IdIn(ids: seq<int>): CallRow -> bool
  {
    (c: CallRow) => c.id in ids
  }

  /** The previous page: never below the first. */
  function PageBefore(page: int): int
  {
    if page - 1 > 0 then page - 1 else 0
  }

  /** The next page: never past the last. */
  function PageAfter(page: int, totalPages: int): int
  {
    if totalPages - 1 < page + 1 then totalPages - 1 else page + 1
  }

  /**
   * Previous and Next keep a page within [0, totalPages - 1]: each moves by
   * one unless it is at that end already, and going forward then back
   * returns to the same page.
   */
  lemma PagesClamped(page: int, totalPages: int)
    requires 0 <= page < totalPages
    ensures 0 <= PageBefore(page) <= page && 0 <= PageAfter(page, totalPages) < totalPages
    ensures PageBefore(page) == page - 1 <==> page > 0
    ensures PageAfter(page, totalPages) == page + 1 <==> page < totalPages - 1
    ensures page < totalPages - 1 ==> PageBefore(PageAfter(page, totalPages)) == page
  {
  }

  /** The explorer's state. */
  class Explorer {
    var modelCalls: seq<CallRow>
    var selected: seq<int>
    var showComparison: bool
    var page: int
    var totalPages: int
    var isLoading: bool
    var error: Option<string>

    ghost predicate Valid()
      reads this
    {
      SelectionValid(selected)
    }

    constructor ()
      ensures Valid()
      ensures modelCalls == [] && selected == [] && !showComparison && page == 0 && totalPages == 0
      ensures isLoading && error.None?
    {
      modelCalls := [];
      selected := [];
      showComparison := false;
      page := 0;
      totalPages := 0;
      isLoading := true;
      error := None;
    }

    /**
     * loadData's state updates when every request answers: a plain list is
     * one page, a page brings its page count; loading ends with no error.
     */
    method Loaded(result: CallsResult)
      modifies this
      ensures result.CallList? ==> modelCalls == result.calls && totalPages == 1
      ensures result.CallPage? ==> modelCalls == result.content && totalPages == result.totalPages
      ensures !isLoading && error.None?
      ensures selected == old(selected) && showComparison == old(showComparison) && page == old(page)
    {
      isLoading := true;
      error := None;
      match result {
        case CallList(calls) =>
          modelCalls := calls;
          totalPages := 1;
        case CallPage(content, pages) =>
          modelCalls := content;
          totalPages := pages;
      }
      isLoading := false;
    }

    /**
     * loadData's state updates when a request throws: the calls and the
     * page count stay as they were, the caught error's text is shown and
     * loading ends.
     */
    method LoadFailed(thrown: Thrown)
      modifies this
      ensures !isLoading && error == Some(LoadErrorText(thrown))
      ensures modelCalls == old(modelCalls) && totalPages == old(totalPages)
      ensures selected == old(selected) && showComparison == old(showComparison) && page == old(page)
    {
      isLoading := true;
      error := None;
      error := Some(LoadErrorText(thrown));
      isLoading := false;
    }

    /** handleCallSelection */
    method HandleCallSelection(callId: int, isSelected: bool)
      requires Valid()
      modifies this
      ensures Valid()
      ensures selected == Selecting(old(selected), callId, isSelected)
      ensures modelCalls == old(modelCalls) && showComparison == old(showComparison)
      ensures page == old(page) && totalPages == old(totalPages)
      ensures isLoading == old(isLoading) && error == old(error)
    {
      SelectionBounded(selected, callId, isSelected);
      var newSet := selected;
      if isSelected {
        if |newSet| >= 2 {
          var firstItem := newSet[0];
          newSet := Without(newSet, firstItem);
        }
        newSet := With(newSet, callId);
      } else {
        newSet := Without(newSet, callId);
      }
      selected := newSet;
    }

    /** getSelectedCallsData: the loaded calls whose id is selected, in table order. */
    function SelectedCallsData(): (r: seq<CallRow>)
      reads this
      ensures forall c :: c in r <==> c in modelCalls && c.id in selected
      ensures |r| <= |modelCalls|
    {
      Filter(modelCalls, IdIn(selected))
    }

    /** The Compare button is shown only with exactly two calls selected. */
    predicate CompareAvailable()
      reads this
    {
      |selected| == 2
    }

    /** The comparison is rendered only when it is open and exactly two loaded calls are selected. */
    predicate ComparisonRendered()
      reads this
    {
      showComparison && |SelectedCallsData()| == 2
    }

    /**
     * A rendered comparison of two differently numbered calls shows exactly
     * the two selected calls.
     */
    lemma ComparisonShowsSelection()
      requires Valid() && ComparisonRendered()
      requires SelectedCallsData()[0].id != SelectedCallsData()[1].id
      ensures |selected| == 2
      ensures forall y :: y in selected <==> y == SelectedCallsData()[0].id || y == SelectedCallsData()[1].id
    {
      var r := SelectedCallsData();
      assert r[0] in r && r[1] in r;
      assert r[0].id in selected && r[1].id in selected;
    }

    /** The Compare button's action. */
    method OpenComparison()
      requires CompareAvailable()
      modifies this
      ensures showComparison
      ensures modelCalls == old(modelCalls) && selected == old(selected)
      ensures page == old(page) && totalPages == old(totalPages)
      ensures isLoading == old(isLoading) && error == old(error)
    {
      showComparison := true;
    }

    /** clearSelection: nothing selected and the comparison hidden. */
    method ClearSelection()
      modifies this
      ensures selected == [] && !showComparison && !CompareAvailable()
      ensures modelCalls == old(modelCalls) && page == old(page) && totalPages == old(totalPages)
      ensures isLoading == old(isLoading) && error == old(error)
    {
      selected := [];
      showComparison := false;
    }

    /** The header checkbox is checked when every loaded call is selected. */
    predicate AllSelected()
      reads this
    {
      |selected| == |modelCalls| && |modelCalls| > 0
    }

    /** The header checkbox: checking selects the first two listed calls, unchecking clears the selection. */
    method ToggleAll(checked: bool)
      modifies this
      ensures Valid()
      ensures checked ==> selected == FirstTwoIds(modelCalls)
      ensures !checked ==> selected == []
      ensures modelCalls == old(modelCalls) && showComparison == old(showComparison)
      ensures page == old(page) && totalPages == old(totalPages)
      ensures isLoading == old(isLoading) && error == old(error)
    {
      if checked {
        selected := FirstTwoIds(modelCalls);
      } else {
        selected := [];
      }
    }

    /** Previous */
    method PreviousPage()
      modifies this
      ensures page == PageBefore(old(page))
      ensures modelCalls == old(modelCalls) && selected == old(selected)
      ensures showComparison == old(showComparison) && totalPages == old(totalPages)
      ensures isLoading == old(isLoading) && error == old(error)
    {
      page := if 0 > page - 1 then 0 else page - 1;
    }

    /** Next */
    method NextPage()
      modifies this
      ensures page == PageAfter(old(page), totalPages)
      ensures modelCalls == old(modelCalls) && selected == old(selected)
      ensures showComparison == old(showComparison) && totalPages == old(totalPages)
      ensures isLoading == old(isLoading) && error == old(error)
    {
      page := if totalPages - 1 < page + 1 then totalPages - 1 else page + 1;
    }
  }

  /** formatDuration's text: a label, or the seconds `(ms / 1000).toFixed(2) + "s"` shows for ms. */
  datatype DurationText = Label(text: string) | FixedSeconds(ms: int)

  /** formatDuration: a missing or zero duration is "N/A", under a second "<n>ms". */
  function FormatDuration(ms: Option<int>): (r: DurationText)
    ensures r == Label("N/A") <==> ms.None? || ms == Some(0)
    ensures r.FixedSeconds? <==> ms.Some? && ms.value >= 1000
  {
    match ms
    case None => Label("N/A")
    case Some(0) => Label("N/A")
    case Some(n) =>
      if n < 1000 then
        var t := IntToString(n) + "ms";
        assert t[|t| - 1] == 's';
        Label(t)
      else FixedSeconds(n)
  }

  /**
   * Between one and 999 milliseconds the text is the number followed by
   * "ms", and reads back as the duration.
   */
  lemma MillisecondsShown(n: nat)
    requires 0 < n < 1000
    ensures var r := FormatDuration(Some(n));
      && r.Label? && r.text == NatToString(n) + "ms"
      && AllDigits(r.text[..|r.text| - 2]) && DigitsValue(r.text[..|r.text| - 2]) == n
  {
    var t := FormatDuration(Some(n)).text;
    assert t[..|t| - 2] == NatToString(n);
    DigitsValueOfNatToString(n);
  }
}
