/**
 * A task of the task tracker: an ID fixed at construction, a name and a
 * description that setters overwrite. The constructor enforces the
 * length rules; the setters do not.
 */
module Tasks {
  import opened Wrappers
  import opened JavaLang

  const MaxIdLength := 10
  const MaxNameLength := 20
  const MaxDescriptionLength := 50

  /** A string that is not null and has at most max characters. */
  predicate Within(s: Option<string>, max: nat)
  {
    s.Some? && |s.value| <= max
  }

  predicate ValidTask(id: Option<string>, name: Option<string>, description: Option<string>)
  {
    Within(id, MaxIdLength) && Within(name, MaxNameLength) && Within(description, MaxDescriptionLength)
  }

  /**
   * The message of the exception the constructor throws: the first rule
   * broken, in the order ID, name, description; None when all hold.
   */
  function TaskViolation(id: Option<string>, name: Option<string>, description: Option<string>): (r: Option<string>)
    ensures r == None <==> ValidTask(id, name, description)
    ensures r == Some("Invalid task ID") <==> !Within(id, MaxIdLength)
    ensures r == Some("Invalid task name") <==> Within(id, MaxIdLength) && !Within(name, MaxNameLength)
    ensures r == Some("Invalid task description") <==>
      Within(id, MaxIdLength) && Within(name, MaxNameLength) && !Within(description, MaxDescriptionLength)
  {
    if !Within(id, MaxIdLength) then Some("Invalid task ID")
    else if !Within(name, MaxNameLength) then Some("Invalid task name")
    else if !Within(description, MaxDescriptionLength) then Some("Invalid task description")
    else None
  }

  /** A snapshot of a task's fields; setters may later make the name or description null. */
  datatype TaskFields = TaskFields(id: string, name: Option<string>, description: Option<string>)

  predicate ValidFields(f: TaskFields)
  {
    ValidTask(Some(f.id), f.name, f.description)
  }

  class Task {
    const id: string
    var name: Option<string>
    var description: Option<string>

    function Fields(): TaskFields
      reads this
    {
      TaskFields(id, name, description)
    }

    /** The constructor once its checks have passed: the three fields are stored as given. */
    constructor (id: Option<string>, name: Option<string>, description: Option<string>)
      requires ValidTask(id, name, description)
      ensures Fields() == TaskFields(id.value, name, description)
    {
      this.id := id.value;
      this.name := name;
      this.description := description;
    }

    /**
     * new Task(...): throws IllegalArgumentException with the first broken
     * rule's message, or returns a new task holding the fields.
     */
    static method New(id: Option<string>, name: Option<string>, description: Option<string>)
      returns (r: Result<Task, Exception>)
      ensures r.Err? <==> TaskViolation(id, name, description).Some?
      ensures r.Err? ==> r.error == IllegalArgumentException(TaskViolation(id, name, description).value)
      ensures r.Ok? ==> fresh(r.value) && r.value.Fields() == TaskFields(id.value, name, description)
    {
      if id.None? || |id.value| > MaxIdLength {
        return Err(IllegalArgumentException("Invalid task ID"));
      }
      if name.None? || |name.value| > MaxNameLength {
        return Err(IllegalArgumentException("Invalid task name"));
      }
      if description.None? || |description.value| > MaxDescriptionLength {
        return Err(IllegalArgumentException("Invalid task description"));
      }
      var t := new Task(id, name, description);
      r := Ok(t);
    }

    /** Replaces the name, unchecked. */
    method SetName(name: Option<string>)
      modifies this
      ensures Fields() == old(Fields()).(name := name)
    {
      this.name := name;
    }

    /** Replaces the description, unchecked. */
    method SetDescription(description: Option<string>)
      modifies this
      ensures Fields() == old(Fields()).(description := description)
    {
      this.description := description;
    }
  }
}
