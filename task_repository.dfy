/**
 * The tasks collection: tasks to and from documents, insert with
 * duplicate-ID protection, lookup by ID, a partial update of the name and
 * description when neither null nor empty, and delete.
 */
module TaskRepo {
  import opened Wrappers
  import opened JavaLang
  import opened Documents
  import opened Tasks

  const IdKey := "taskID"
  const NameKey := "name"
  const DescriptionKey := "description"

  const DuplicateId := "Task ID already exists"

  /** toDocument: one field per task field, under the task's ID key. */
  function ToDocument(f: TaskFields): Document
  {
    var d0 := AppendString(map[], IdKey, Some(f.id));
    var d1 := AppendString(d0, NameKey, f.name);
    AppendString(d1, DescriptionKey, f.description)
  }

  /** fromDocument: the three fields read back and passed through the validating constructor. */
  function FromDocument(doc: Document): Result<TaskFields, Exception>
  {
    var id := GetString(doc, IdKey);
    var name := GetString(doc, NameKey);
    var description := GetString(doc, DescriptionKey);
    match TaskViolation(id, name, description)
    case Some(message) => Err(IllegalArgumentException(message))
    case None => Ok(TaskFields(id.value, name, description))
  }

  /** Each field of a task is read back from its document unchanged. */
  lemma ToDocumentFields(f: TaskFields)
    ensures GetString(ToDocument(f), IdKey) == Some(f.id)
    ensures GetString(ToDocument(f), NameKey) == f.name
    ensures GetString(ToDocument(f), DescriptionKey) == f.description
  {
    var d0 := AppendString(map[], IdKey, Some(f.id));
    var d1 := AppendString(d0, NameKey, f.name);
    assert GetString(d1, IdKey) == GetString(d0, IdKey);
  }

  /** fromDocument(toDocument(t)) gives back the ID, name and description of a task that obeys the rules. */
  lemma DocumentRoundTrip(f: TaskFields)
    requires ValidFields(f)
    ensures FromDocument(ToDocument(f)) == Ok(f)
  {
    ToDocumentFields(f);
  }

  /** A stored document that breaks a rule cannot be read back: fromDocument throws the constructor's exception. */
  lemma InvalidDocumentRejected(doc: Document)
    requires TaskViolation(GetString(doc, IdKey), GetString(doc, NameKey), GetString(doc, DescriptionKey)).Some?
    ensures FromDocument(doc).Err?
    ensures FromDocument(doc).error == IllegalArgumentException(
      TaskViolation(GetString(doc, IdKey), GetString(doc, NameKey), GetString(doc, DescriptionKey)).value)
  {
  }

  /** insert: a duplicate ID is refused with the store unchanged; otherwise the document is added. */
  function Inserted(col: Collection, f: TaskFields): Result<Collection, Exception>
  {
    if f.id in col then Err(IllegalArgumentException(DuplicateId)) else Ok(col[f.id := ToDocument(f)])
  }

  /** findById: null for an absent ID, else the stored document read through fromDocument. */
  function Found(col: Collection, id: string): Result<Option<TaskFields>, Exception>
  {
    if id !in col then Ok(None)
    else
      match FromDocument(col[id])
      case Err(e) => Err(e)
      case Ok(f) => Ok(Some(f))
  }

  /** A task found under an ID carries that ID, obeys the rules, and holds the stored document's fields. */
  lemma FoundFields(col: Collection, id: string)
    requires Keyed(col, IdKey) && Found(col, id).Ok? && Found(col, id).value.Some?
    ensures var f := Found(col, id).value.value;
      && id in col && f.id == id && ValidFields(f)
      && GetString(col[id], NameKey) == f.name && GetString(col[id], DescriptionKey) == f.description
  {
  }

  /** The `$set` document update builds: the fields that are neither null nor empty. */
  function UpdateDocument(f: TaskFields): Document
  {
    var u1 := AppendIfNonEmpty(map[], NameKey, f.name);
    AppendIfNonEmpty(u1, DescriptionKey, f.description)
  }

  /** update: nothing when no field qualifies, else updateOne on the task's ID. */
  function Updated(col: Collection, f: TaskFields): Collection
  {
    var fields := UpdateDocument(f);
    if fields == map[] then col else UpdateOne(col, f.id, fields)
  }

  /** delete: deleteOne on the ID. */
  function Deleted(col: Collection, id: string): Collection
  {
    col - {id}
  }

  /** The field a partial update leaves: the new value when non-empty, the stored one otherwise. */
  function Kept(stored: Option<string>, given: Option<string>): Option<string>
  {
    if NonEmpty(given) then given else stored
  }

  lemma UpdateDocumentFields(f: TaskFields)
    ensures IdKey !in UpdateDocument(f)
    ensures UpdateDocument(f).Keys <= {NameKey, DescriptionKey}
    ensures NameKey in UpdateDocument(f) <==> NonEmpty(f.name)
    ensures DescriptionKey in UpdateDocument(f) <==> NonEmpty(f.description)
    ensures NonEmpty(f.name) ==> UpdateDocument(f)[NameKey] == Str(f.name.value)
    ensures NonEmpty(f.description) ==> UpdateDocument(f)[DescriptionKey] == Str(f.description.value)
  {
  }

  /**
   * After update, the name and description of the stored document are
   * the given values when neither null nor empty and the stored ones
   * otherwise; the ID field and every other document stay as they were.
   * With no such field, or no document under the ID, nothing changes.
   */
  lemma UpdateWritesNonEmpty(col: Collection, f: TaskFields)
    ensures Updated(col, f).Keys == col.Keys
    ensures forall k :: k in col && k != f.id ==> Updated(col, f)[k] == col[k]
    ensures f.id !in col ==> Updated(col, f) == col
    ensures !NonEmpty(f.name) && !NonEmpty(f.description) ==> Updated(col, f) == col
    ensures f.id in col ==>
      var before := col[f.id];
      var after := Updated(col, f)[f.id];
      && GetString(after, IdKey) == GetString(before, IdKey)
      && GetString(after, NameKey) == Kept(GetString(before, NameKey), f.name)
      && GetString(after, DescriptionKey) == Kept(GetString(before, DescriptionKey), f.description)
  {
    UpdateDocumentFields(f);
    if !NonEmpty(f.name) && !NonEmpty(f.description) {
      assert UpdateDocument(f) == map[];
    }
  }

  lemma UpdatedKeyed(col: Collection, f: TaskFields)
    requires Keyed(col, IdKey)
    ensures Keyed(Updated(col, f), IdKey)
  {
    UpdateDocumentFields(f);
    UpdateOneKeyed(col, IdKey, f.id, UpdateDocument(f));
  }

  /** Insert and delete keep every document under its own ID. */
  lemma InsertDeleteKeyed(col: Collection, f: TaskFields, id: string)
    requires Keyed(col, IdKey)
    ensures Inserted(col, f).Ok? ==> Keyed(Inserted(col, f).value, IdKey)
    ensures Keyed(Deleted(col, id), IdKey)
  {
    ToDocumentFields(f);
  }

  /**
   * Inserting an ID already stored throws "Task ID already exists";
   * otherwise the new document is stored under its ID and nothing else
   * changes. Delete removes exactly that ID, and lookups of an absent ID
   * return null.
   */
  lemma CrudEffects(col: Collection, f: TaskFields, id: string)
    ensures f.id in col ==> Inserted(col, f) == Err(IllegalArgumentException(DuplicateId))
    ensures f.id !in col ==> Inserted(col, f) == Ok(col[f.id := ToDocument(f)])
    ensures Deleted(col, id).Keys == col.Keys - {id}
    ensures forall k :: k in Deleted(col, id) ==> Deleted(col, id)[k] == col[k]
    ensures Found(Deleted(col, id), id) == Ok(None)
    ensures id !in col ==> Found(col, id) == Ok(None)
  {
  }

  /** A task inserted with valid fields is found again with the same fields. */
  lemma InsertThenFind(col: Collection, f: TaskFields)
    requires ValidFields(f) && f.id !in col
    ensures Found(Inserted(col, f).value, f.id) == Ok(Some(f))
  {
    DocumentRoundTrip(f);
  }

  class TaskRepository {
    var collection: Collection

    ghost predicate Valid()
      reads this
    {
      Keyed(collection, IdKey)
    }

    /** A repository over the tasks the collection already holds. */
    constructor (initial: Collection)
      requires Keyed(initial, IdKey)
      ensures collection == initial && Valid()
    {
      collection := initial;
    }

    /** insert: a duplicate key becomes IllegalArgumentException. */
    method Insert(task: Task) returns (r: Result<(), Exception>)
      requires Valid()
      modifies this
      ensures Valid()
      ensures var expected := Inserted(old(collection), task.Fields());
        && (r.Err? <==> expected.Err?)
        && (r.Err? ==> r.error == expected.error && collection == old(collection))
        && (r.Ok? ==> collection == expected.value)
    {
      InsertDeleteKeyed(collection, task.Fields(), task.id);
      var doc := ToDocument(task.Fields());
      if task.id in collection {
        return Err(IllegalArgumentException(DuplicateId));
      }
      collection := collection[task.id := doc];
      r := Ok(());
    }

    /** findById: null for an absent ID; a new Task built by the validating constructor otherwise. */
    method FindById(id: string) returns (r: Result<Option<Task>, Exception>)
      ensures r.Err? <==> Found(collection, id).Err?
      ensures r.Err? ==> r.error == Found(collection, id).error
      ensures r.Ok? ==> (r.value.None? <==> Found(collection, id).value.None?)
      ensures r.Ok? && r.value.Some? ==>
        Found(collection, id).value.Some? && fresh(r.value.value) && r.value.value.Fields() == Found(collection, id).value.value
    {
      if id !in collection {
        return Ok(None);
      }
      var doc := collection[id];
      var t := Task.New(GetString(doc, IdKey), GetString(doc, NameKey), GetString(doc, DescriptionKey));
      match t {
        case Err(e) => r := Err(e);
        case Ok(task) => r := Ok(Some(task));
      }
    }

    /** update: the `$set` document is built one non-empty field at a time. */
    method Update(task: Task)
      requires Valid()
      modifies this
      ensures Valid()
      ensures collection == Updated(old(collection), task.Fields())
    {
      UpdatedKeyed(collection, task.Fields());
      var fields: Document := map[];
      if task.name.Some? && task.name.value != "" {
        fields := fields[NameKey := Str(task.name.value)];
      }
      if task.description.Some? && task.description.value != "" {
        fields := fields[DescriptionKey := Str(task.description.value)];
      }
      assert fields == UpdateDocument(task.Fields());
      if fields == map[] {
        return;
      }
      collection := UpdateOne(collection, task.id, fields);
    }

    /** delete. */
    method Delete(id: string)
      requires Valid()
      modifies this
      ensures Valid()
      ensures collection == Deleted(old(collection), id)
    {
      collection := collection - {id};
    }
  }
}
