/**
 * The Prompt entity: a named prompt text of some prompt type, soft-deleted
 * by stamping a deletion date. Its lifecycle hooks stamp the creation and
 * update times; the clock's reading is a parameter.
 */
module PromptEntity {
  import opened Wrappers

  /** A row of the prompt_type table. */
  datatype PromptType = PromptType(
    id: int,
    promptType: string,
    description: Option<string>,
    createdAt: Option<int>,
    updatedAt: Option<int>)

  /** A stored prompt row. */
  datatype PromptRecord = PromptRecord(
    id: int,
    name: string,
    text: string,
    promptType: PromptType,
    createdAt: Option<int>,
    updatedAt: Option<int>,
    deletedDate: Option<int>)

  function PromptIdOf(r: PromptRecord): int { r.id }

  function PromptWithId(r: PromptRecord, id: int): (s: PromptRecord)
    ensures PromptIdOf(s) == id
  {
    r.(id := id)
  }

  /** The active prompts are those without a deletion date. */
  predicate Active(r: PromptRecord)
  {
    r.deletedDate.None?
  }

  /** An entity Prompt, whose hooks and markDeleted update its fields in place. */
  class Prompt {
    var id: int
    var name: string
    var text: string
    var promptType: PromptType
    var createdAt: Option<int>
    var updatedAt: Option<int>
    var deletedDate: Option<int>

    /** The entity loaded from a stored row. */
    constructor Load(r: PromptRecord)
      ensures Record() == r
    {
      id, name, text, promptType := r.id, r.name, r.text, r.promptType;
      createdAt, updatedAt, deletedDate := r.createdAt, r.updatedAt, r.deletedDate;
    }

    /** Prompt.builder().name(..).text(..).type(..).build(): no id and no timestamps yet. */
    constructor Build(name: string, text: string, promptType: PromptType)
      ensures Record() == PromptRecord(0, name, text, promptType, None, None, None)
      ensures !IsDeleted()
    {
      this.id, this.name, this.text, this.promptType := 0, name, text, promptType;
      createdAt, updatedAt, deletedDate := None, None, None;
    }

    /** The row the entity saves as. */
    function Record(): PromptRecord
      reads this
    {
      PromptRecord(id, name, text, promptType, createdAt, updatedAt, deletedDate)
    }

    /** isDeleted */
    predicate IsDeleted()
      reads this
    {
      deletedDate.Some?
    }

    /** markDeleted: only the deletion date changes, so the prompt counts as deleted from now on. */
    method MarkDeleted(now: int)
      modifies this`deletedDate
      ensures deletedDate == Some(now) && IsDeleted()
      ensures Record() == old(Record()).(deletedDate := Some(now))
    {
      deletedDate := Some(now);
    }

    /** onCreate (@PrePersist): creation and update time are the same instant. */
    method OnCreate(now: int)
      modifies this`createdAt, this`updatedAt
      ensures createdAt == updatedAt == Some(now)
      ensures Record() == old(Record()).(createdAt := Some(now), updatedAt := Some(now))
    {
      createdAt := Some(now);
      updatedAt := Some(now);
    }

    /** onUpdate (@PreUpdate): only the update time changes. */
    method OnUpdate(now: int)
      modifies this`updatedAt
      ensures Record() == old(Record()).(updatedAt := Some(now))
    {
      updatedAt := Some(now);
    }
  }

  /** A prompt read back after markDeleted is deleted and no longer active; name, text and type are kept. */
  lemma MarkedDeletedIsInactive(r: PromptRecord, now: int)
    ensures !Active(r.(deletedDate := Some(now)))
    ensures var d := r.(deletedDate := Some(now)); d.name == r.name && d.text == r.text && d.promptType == r.promptType
  {
  }
}
