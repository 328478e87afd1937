/**
 * usePrompts: the prompts page's state. The list of active prompts and
 * the creating/updating/deleting flags are replaced step by step around
 * each API call; the call itself is a parameter (what it answered or
 * threw). Each operation is split where it awaits the call: Begin* is the
 * state while the call is pending, Finish* what follows its answer.
 */
module UsePrompts {
  import opened Wrappers
  import opened Seqs
  import opened ApiErrors

  datatype PromptType = PromptType(id: int, promptType: string, description: Option<string>)

  datatype Prompt = Prompt(id: int, name: string, text: string, promptType: PromptType, deleted: bool)

  /** The id of a prompt. */
  function PromptId(p: Prompt): int { p.id }

  /**
   * `prev.filter(p => p.id !== id)`: the prompts with another id, in order;
   * Seqs.WithoutAbsentKey and Seqs.WithoutKeyAt say what removing does to a
   * list with and without the id.
   */
  function WithoutId(prompts: seq<Prompt>, id: int): (r: seq<Prompt>)
    ensures forall p :: p in r <==> p in prompts && p.id != id
    ensures |r| <= |prompts|
  {
    WithoutKey(prompts, PromptId, id)
  }

  /** No two prompts share an id. */
  predicate UniqueIds(prompts: seq<Prompt>)
  {
    forall i, j :: 0 <= i < j < |prompts| ==> prompts[i].id != prompts[j].id
  }

  /** Removing prompts keeps the ids unique. */
  lemma {:induction false} WithoutIdKeepsUnique(prompts: seq<Prompt>, id: int)
    requires UniqueIds(prompts)
    ensures UniqueIds(WithoutId(prompts, id))
  {
    if prompts != [] {
      var tail := prompts[1..];
      assert UniqueIds(tail) by {
        forall i, j | 0 <= i < j < |tail| ensures tail[i].id != tail[j].id {
          assert tail[i] == prompts[i + 1] && tail[j] == prompts[j + 1];
        }
      }
      WithoutIdKeepsUnique(tail, id);
      if prompts[0].id != id {
        var rest := WithoutId(tail, id);
        assert WithoutId(prompts, id) == [prompts[0]] + rest;
        forall q | q in rest ensures q.id != prompts[0].id {
          var j :| 0 <= j < |tail| && tail[j] == q;
          assert prompts[j + 1] == q;
        }
        PrependKeepsUnique(prompts[0], rest);
      } else {
        assert WithoutId(prompts, id) == WithoutId(tail, id);
      }
    }
  }

  /** A prompt put first keeps the ids unique when no other prompt has its id. */
  lemma PrependKeepsUnique(first: Prompt, rest: seq<Prompt>)
    requires UniqueIds(rest)
    requires forall q :: q in rest ==> q.id != first.id
    ensures UniqueIds([first] + rest)
  {
    var r := [first] + rest;
    forall i, j | 0 <= i < j < |r| ensures r[i].id != r[j].id {
      assert r[j] == rest[j - 1];
      if i > 0 {
        assert r[i] == rest[i - 1];
      } else {
        assert rest[j - 1] in rest;
      }
    }
  }

  /** The list after an update: the returned prompt first, then the others with another id. */
  function AfterUpdate(prompts: seq<Prompt>, id: int, updated: Prompt): seq<Prompt>
  {
    [updated] + WithoutId(prompts, id)
  }

  /**
   * An update whose answer keeps the id leaves exactly one prompt with
   * that id, the answer, at the front; ids stay unique and nothing else
   * is lost.
   */
  lemma UpdatePutsAnswerFirst(prompts: seq<Prompt>, id: int, updated: Prompt)
    requires UniqueIds(prompts) && updated.id == id
    ensures var r := AfterUpdate(prompts, id, updated);
      && UniqueIds(r) && r[0] == updated
      && (forall k :: 0 < k < |r| ==> r[k].id != id)
      && (forall p :: p in prompts && p.id != id ==> p in r)
  {
    WithoutIdKeepsUnique(prompts, id);
    PrependKeepsUnique(updated, WithoutId(prompts, id));
    var r := AfterUpdate(prompts, id, updated);
    forall k | 0 < k < |r| ensures r[k].id != id {
      assert r[k] == WithoutId(prompts, id)[k - 1];
      assert r[k] in WithoutId(prompts, id);
    }
  }

  /** A created prompt with a new id keeps the ids unique. */
  lemma CreateKeepsUnique(prompts: seq<Prompt>, created: Prompt)
    requires UniqueIds(prompts)
    requires forall k :: 0 <= k < |prompts| ==> prompts[k].id != created.id
    ensures UniqueIds([created] + prompts)
  {
    PrependKeepsUnique(created, prompts);
  }

  /** The hook's state. */
  class PromptsState {
    var prompts: seq<Prompt>
    var promptTypes: seq<PromptType>
    var loading: bool
    var creating: bool
    var updating: bool
    var deleting: Option<int>
    var error: Option<ErrorState>

    /** The initial state: nothing loaded yet, loading. */
    constructor ()
      ensures prompts == [] && promptTypes == [] && loading
      ensures !creating && !updating && deleting.None? && error.None?
    {
      prompts := [];
      promptTypes := [];
      loading := true;
      creating := false;
      updating := false;
      deleting := None;
      error := None;
    }

    /** fetchPrompts: both lists replaced when both calls answer, the error recorded otherwise. */
    method FetchPrompts(answer: Answer<(seq<Prompt>, seq<PromptType>)>)
      modifies this
      ensures answer.Answered? ==> prompts == answer.value.0 && promptTypes == answer.value.1 && error.None?
      ensures answer.Threw? ==>
        prompts == old(prompts) && promptTypes == old(promptTypes) && error == Some(ErrorStateOf(answer.thrown))
      ensures !loading
      ensures creating == old(creating) && updating == old(updating) && deleting == old(deleting)
    {
      error := None;
      loading := true;
      match answer {
        case Answered(data) =>
          prompts := data.0;
          promptTypes := data.1;
        case Threw(thrown) =>
          error := Some(ErrorStateOf(thrown));
      }
      loading := false;
    }

    /** createPrompt while the call is pending: the error cleared, creating set. */
    method BeginCreate()
      modifies this
      ensures creating && error.None?
      ensures prompts == old(prompts) && promptTypes == old(promptTypes) && loading == old(loading)
      ensures updating == old(updating) && deleting == old(deleting)
    {
      error := None;
      creating := true;
    }

    /** createPrompt once the call answered: the new prompt goes first; a failure is recorded and rethrown. */
    method FinishCreate(answer: Answer<Prompt>) returns (r: Answer<Prompt>)
      modifies this
      ensures r == answer
      ensures answer.Answered? ==> prompts == [answer.value] + old(prompts) && error == old(error)
      ensures answer.Threw? ==> prompts == old(prompts) && error == Some(ErrorStateOf(answer.thrown))
      ensures !creating
      ensures promptTypes == old(promptTypes) && loading == old(loading)
      ensures updating == old(updating) && deleting == old(deleting)
    {
      match answer {
        case Answered(newPrompt) =>
          prompts := [newPrompt] + prompts;
        case Threw(thrown) =>
          error := Some(ErrorStateOf(thrown));
      }
      creating := false;
      r := answer;
    }

    /** createPrompt */
    method CreatePrompt(answer: Answer<Prompt>) returns (r: Answer<Prompt>)
      modifies this
      ensures r == answer
      ensures answer.Answered? ==> prompts == [answer.value] + old(prompts) && error.None?
      ensures answer.Threw? ==> prompts == old(prompts) && error == Some(ErrorStateOf(answer.thrown))
      ensures !creating
      ensures promptTypes == old(promptTypes) && loading == old(loading)
      ensures updating == old(updating) && deleting == old(deleting)
    {
      BeginCreate();
      r := FinishCreate(answer);
    }

    /** updatePrompt while the call is pending: the error cleared, updating set. */
    method BeginUpdate()
      modifies this
      ensures updating && error.None?
      ensures prompts == old(prompts) && promptTypes == old(promptTypes) && loading == old(loading)
      ensures creating == old(creating) && deleting == old(deleting)
    {
      error := None;
      updating := true;
    }

    /**
     * updatePrompt once the call answered: every prompt with the id is
     * removed, then the returned prompt goes first; a failure is recorded
     * and rethrown.
     */
    method FinishUpdate(id: int, answer: Answer<Prompt>) returns (r: Answer<Prompt>)
      modifies this
      ensures r == answer
      ensures answer.Answered? ==> prompts == AfterUpdate(old(prompts), id, answer.value) && error == old(error)
      ensures answer.Threw? ==> prompts == old(prompts) && error == Some(ErrorStateOf(answer.thrown))
      ensures !updating
      ensures promptTypes == old(promptTypes) && loading == old(loading)
      ensures creating == old(creating) && deleting == old(deleting)
    {
      match answer {
        case Answered(updatedPrompt) =>
          prompts := WithoutId(prompts, id);
          prompts := [updatedPrompt] + prompts;
        case Threw(thrown) =>
          error := Some(ErrorStateOf(thrown));
      }
      updating := false;
      r := answer;
    }

    /** updatePrompt */
    method UpdatePrompt(id: int, answer: Answer<Prompt>) returns (r: Answer<Prompt>)
      modifies this
      ensures r == answer
      ensures answer.Answered? ==> prompts == AfterUpdate(old(prompts), id, answer.value) && error.None?
      ensures answer.Threw? ==> prompts == old(prompts) && error == Some(ErrorStateOf(answer.thrown))
      ensures !updating
      ensures promptTypes == old(promptTypes) && loading == old(loading)
      ensures creating == old(creating) && deleting == old(deleting)
    {
      BeginUpdate();
      r := FinishUpdate(id, answer);
    }

    /** deletePrompt while the call is pending: the error cleared, deleting holds the id. */
    method BeginDelete(id: int)
      modifies this
      ensures deleting == Some(id) && error.None?
      ensures prompts == old(prompts) && promptTypes == old(promptTypes) && loading == old(loading)
      ensures creating == old(creating) && updating == old(updating)
    {
      error := None;
      deleting := Some(id);
    }

    /**
     * deletePrompt once the call answered: every prompt with the id leaves
     * the list; a failure is recorded and rethrown; either way deleting is
     * back to null.
     */
    method FinishDelete(id: int, answer: Answer<()>) returns (r: Answer<()>)
      modifies this
      ensures r == answer
      ensures answer.Answered? ==> prompts == WithoutId(old(prompts), id) && error == old(error)
      ensures answer.Threw? ==> prompts == old(prompts) && error == Some(ErrorStateOf(answer.thrown))
      ensures deleting.None?
      ensures promptTypes == old(promptTypes) && loading == old(loading)
      ensures creating == old(creating) && updating == old(updating)
    {
      match answer {
        case Answered(_) =>
          prompts := WithoutId(prompts, id);
        case Threw(thrown) =>
          error := Some(ErrorStateOf(thrown));
      }
      deleting := None;
      r := answer;
    }

    /** deletePrompt */
    method DeletePrompt(id: int, answer: Answer<()>) returns (r: Answer<()>)
      modifies this
      ensures r == answer
      ensures answer.Answered? ==> prompts == WithoutId(old(prompts), id) && error.None?
      ensures answer.Threw? ==> prompts == old(prompts) && error == Some(ErrorStateOf(answer.thrown))
      ensures deleting.None?
      ensures promptTypes == old(promptTypes) && loading == old(loading)
      ensures creating == old(creating) && updating == old(updating)
    {
      BeginDelete(id);
      r := FinishDelete(id, answer);
    }

    /**
     * searchPrompts and getPromptsByType: the error is cleared, the API's
     * answer is handed back as it came, and a failure is recorded and
     * rethrown. The lists are left alone.
     */
    method Query<T>(answer: Answer<T>) returns (r: Answer<T>)
      modifies this`error
      ensures r == answer
      ensures answer.Answered? ==> error.None?
      ensures answer.Threw? ==> error == Some(ErrorStateOf(answer.thrown))
    {
      error := None;
      if answer.Threw? {
        error := Some(ErrorStateOf(answer.thrown));
      }
      r := answer;
    }
  }
}
