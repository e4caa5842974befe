/**
 * The task service's business rules over the repository: add relies on
 * the duplicate-ID check, delete and update require the task to exist,
 * and update goes through the setters, so it is not re-validated.
 */
module TaskServices {
  import opened Wrappers
  import opened JavaLang
  import opened Documents
  import opened Tasks
  import opened TaskRepo

  const NotFound := "Task not found"

  /** deleteTask: the lookup's exception, "Task not found", or the store without the task. */
  function DeleteOutcome(col: Collection, id: string): Result<Collection, Exception>
  {
    match Found(col, id)
    case Err(e) => Err(e)
    case Ok(None) => Err(IllegalArgumentException(NotFound))
    case Ok(Some(_)) => Ok(Deleted(col, id))
  }

  /** The fetched task after the setters for the non-empty arguments. */
  function Applied(f: TaskFields, name: Option<string>, description: Option<string>): TaskFields
  {
    f.(name := Kept(f.name, name), description := Kept(f.description, description))
  }

  /** updateTask: the lookup's exception, "Task not found", or the update of the changed task. */
  function UpdateOutcome(col: Collection, id: string, name: Option<string>, description: Option<string>)
    : Result<Collection, Exception>
  {
    match Found(col, id)
    case Err(e) => Err(e)
    case Ok(None) => Err(IllegalArgumentException(NotFound))
    case Ok(Some(f)) => Ok(Updated(col, Applied(f, name, description)))
  }

  /**
   * Deleting a missing task throws "Task not found" and changes nothing;
   * deleting a stored one that reads back makes a later lookup return
   * null and keeps every other task.
   */
  lemma DeleteThenGet(col: Collection, id: string)
    ensures id !in col ==> DeleteOutcome(col, id) == Err(IllegalArgumentException(NotFound))
    ensures Found(col, id).Ok? && Found(col, id).value.Some? ==>
      && DeleteOutcome(col, id).Ok?
      && Found(DeleteOutcome(col, id).value, id) == Ok(None)
      && forall k :: k in col && k != id ==> k in DeleteOutcome(col, id).value && DeleteOutcome(col, id).value[k] == col[k]
  {
    CrudEffects(col, TaskFields(id, None, None), id);
  }

  /**
   * Updating a stored task replaces the name and the description only
   * when the argument is neither null nor empty, keeping the other field;
   * a call with neither leaves the store as it was; a missing task throws.
   */
  lemma UpdateReplacesNonEmpty(col: Collection, id: string, name: Option<string>, description: Option<string>)
    requires Keyed(col, IdKey)
    ensures id !in col ==> UpdateOutcome(col, id, name, description) == Err(IllegalArgumentException(NotFound))
    ensures Found(col, id).Ok? && Found(col, id).value.Some? ==>
      var f := Found(col, id).value.value;
      var r := UpdateOutcome(col, id, name, description);
      && r.Ok? && id in r.value
      && GetString(r.value[id], IdKey) == Some(id)
      && GetString(r.value[id], NameKey) == Kept(f.name, name)
      && GetString(r.value[id], DescriptionKey) == Kept(f.description, description)
      && (forall k :: k in col && k != id ==> k in r.value && r.value[k] == col[k])
      && (!NonEmpty(name) && !NonEmpty(description) ==> r.value == col)
  {
    if Found(col, id).Ok? && Found(col, id).value.Some? {
      var f := Found(col, id).value.value;
      FoundFields(col, id);
      var g := Applied(f, name, description);
      assert UpdateOutcome(col, id, name, description) == Ok(Updated(col, g));
      UpdateWritesNonEmpty(col, g);
      if !NonEmpty(name) && !NonEmpty(description) {
        AllKeptUnchanged(col, f, g);
      }
    }
  }

  /** Writing back a task's own fields, when they were read from its document, changes nothing. */
  lemma AllKeptUnchanged(col: Collection, f: TaskFields, g: TaskFields)
    requires f.id in col && g == f
    requires GetString(col[f.id], NameKey) == f.name && GetString(col[f.id], DescriptionKey) == f.description
    ensures Updated(col, g) == col
  {
    UpdateDocumentFields(g);
    SetSameFields(col[f.id], UpdateDocument(g));
  }

  /**
   * The new values are not checked against the constructor's rules: an
   * update to a 21-character name succeeds, and from then on the task can
   * no longer be read back, so a lookup throws "Invalid task name".
   */
  lemma UpdateNotRevalidated(col: Collection, id: string, longName: string)
    requires Keyed(col, IdKey)
    requires Found(col, id).Ok? && Found(col, id).value.Some?
    requires |longName| == MaxNameLength + 1
    ensures UpdateOutcome(col, id, Some(longName), None).Ok?
    ensures Found(UpdateOutcome(col, id, Some(longName), None).value, id) == Err(IllegalArgumentException("Invalid task name"))
  {
    UpdateReplacesNonEmpty(col, id, Some(longName), None);
    var after := UpdateOutcome(col, id, Some(longName), None).value[id];
    assert GetString(after, NameKey) == Some(longName);
  }

  class TaskService {
    const repository: TaskRepository

    ghost predicate Valid()
      reads this, repository
    {
      repository.Valid()
    }

    /** A service over a repository holding the given tasks. */
    constructor (initial: Collection)
      requires Keyed(initial, IdKey)
      ensures fresh(repository) && repository.collection == initial && Valid()
    {
      repository := new TaskRepository(initial);
    }

    /** addNewTask: the repository's insert, duplicate check included. */
    method AddNewTask(task: Task) returns (r: Result<(), Exception>)
      requires Valid()
      modifies repository
      ensures Valid()
      ensures var expected := Inserted(old(repository.collection), task.Fields());
        && (r.Err? <==> expected.Err?)
        && (r.Err? ==> r.error == expected.error && repository.collection == old(repository.collection))
        && (r.Ok? ==> repository.collection == expected.value)
    {
      r := repository.Insert(task);
    }

    /** deleteTask. */
    method DeleteTask(id: string) returns (r: Result<(), Exception>)
      requires Valid()
      modifies repository
      ensures Valid()
      ensures var expected := DeleteOutcome(old(repository.collection), id);
        && (r.Err? <==> expected.Err?)
        && (r.Err? ==> r.error == expected.error && repository.collection == old(repository.collection))
        && (r.Ok? ==> repository.collection == expected.value)
    {
      var existing := repository.FindById(id);
      if existing.Err? {
        return Err(existing.error);
      }
      if existing.value.None? {
        return Err(IllegalArgumentException(NotFound));
      }
      repository.Delete(id);
      r := Ok(());
    }

    /** updateTask: fetch, apply the setters for the non-empty arguments, write back. */
    method UpdateTask(id: string, name: Option<string>, description: Option<string>) returns (r: Result<(), Exception>)
      requires Valid()
      modifies repository
      ensures Valid()
      ensures var expected := UpdateOutcome(old(repository.collection), id, name, description);
        && (r.Err? <==> expected.Err?)
        && (r.Err? ==> r.error == expected.error && repository.collection == old(repository.collection))
        && (r.Ok? ==> repository.collection == expected.value)
    {
      var found := repository.FindById(id);
      if found.Err? {
        return Err(found.error);
      }
      if found.value.None? {
        return Err(IllegalArgumentException(NotFound));
      }
      var existing := found.value.value;
      ghost var f := existing.Fields();
      ghost var col := repository.collection;
      FoundFields(col, id);
      assert UpdateOutcome(col, id, name, description) == Ok(Updated(col, Applied(f, name, description)));
      if name.Some? && name.value != "" {
        existing.SetName(name);
      }
      if description.Some? && description.value != "" {
        existing.SetDescription(description);
      }
      assert existing.Fields() == Applied(f, name, description);
      repository.Update(existing);
      r := Ok(());
    }

    /** getTask: the repository's findById. */
    method GetTask(id: string) returns (r: Result<Option<Task>, Exception>)
      ensures r.Err? <==> Found(repository.collection, id).Err?
      ensures r.Err? ==> r.error == Found(repository.collection, id).error
      ensures r.Ok? ==> (r.value.None? <==> Found(repository.collection, id).value.None?)
      ensures r.Ok? && r.value.Some? ==>
        Found(repository.collection, id).value.Some? && fresh(r.value.value) && r.value.value.Fields() == Found(repository.collection, id).value.value
    {
      r := repository.FindById(id);
    }
  }
}
