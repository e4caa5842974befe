/**
 * The appointment service's business rules over the repository: add
 * relies on the duplicate-ID check, and delete and update require the
 * appointment to exist, which means looking it up at the current time.
 */
module AppointmentServices {
  import opened Wrappers
  import opened JavaLang
  import opened Documents
  import opened Appointments
  import opened AppointmentRepo

  const NotFound := "Appointment not found"

  /** deleteAppointment at time now: the lookup's exception, "Appointment not found", or the store without it. */
  function DeleteOutcome(col: Collection, id: string, now: Date): Result<Collection, Exception>
  {
    match Found(col, id, now)
    case Err(e) => Err(e)
    case Ok(None) => Err(IllegalArgumentException(NotFound))
    case Ok(Some(_)) => Ok(Deleted(col, id))
  }

  /** updateAppointment at time now: the lookup's exception, "Appointment not found", or the partial update. */
  function UpdateOutcome(col: Collection, a: Appointment, now: Date): Result<Collection, Exception>
  {
    match Found(col, a.id, now)
    case Err(e) => Err(e)
    case Ok(None) => Err(IllegalArgumentException(NotFound))
    case Ok(Some(_)) => Ok(Updated(col, a))
  }

  /**
   * Deleting a missing appointment throws "Appointment not found" and
   * changes nothing; deleting one that reads back makes a later lookup
   * return null and keeps every other appointment.
   */
  lemma DeleteThenGet(col: Collection, id: string, now: Date, later: Date)
    ensures id !in col ==> DeleteOutcome(col, id, now) == Err(IllegalArgumentException(NotFound))
    ensures Found(col, id, now).Ok? && Found(col, id, now).value.Some? ==>
      && DeleteOutcome(col, id, now).Ok?
      && Found(DeleteOutcome(col, id, now).value, id, later) == Ok(None)
      && forall k :: k in col && k != id ==> k in DeleteOutcome(col, id, now).value && DeleteOutcome(col, id, now).value[k] == col[k]
  {
    CrudEffects(col, Appointment(id, now, ""), id, later);
  }

  /**
   * An appointment whose date has passed can be neither deleted nor
   * updated: the existence check throws "Invalid appointment date" and
   * the store keeps it.
   */
  lemma PastAppointmentStuck(col: Collection, a: Appointment, now: Date, replacement: Appointment)
    requires a.id in col && col[a.id] == ToDocument(a) && replacement.id == a.id
    requires |a.id| <= MaxIdLength && |a.description| <= MaxDescriptionLength
    requires now > a.date
    ensures DeleteOutcome(col, a.id, now) == Err(IllegalArgumentException("Invalid appointment date"))
    ensures UpdateOutcome(col, replacement, now) == Err(IllegalArgumentException("Invalid appointment date"))
  {
    FoundUntilDatePasses(col, a, now);
  }

  /**
   * Updating an appointment that reads back writes its date, and its
   * description when not empty, to the stored document and keeps every
   * other appointment; a missing appointment throws.
   */
  lemma UpdateWritesDate(col: Collection, a: Appointment, now: Date)
    ensures a.id !in col ==> UpdateOutcome(col, a, now) == Err(IllegalArgumentException(NotFound))
    ensures Found(col, a.id, now).Ok? && Found(col, a.id, now).value.Some? ==>
      var r := UpdateOutcome(col, a, now);
      && r.Ok? && a.id in r.value
      && GetDate(r.value[a.id], DateKey) == Some(a.date)
      && GetString(r.value[a.id], DescriptionKey)
         == (if a.description != "" then Some(a.description) else GetString(col[a.id], DescriptionKey))
      && GetString(r.value[a.id], IdKey) == GetString(col[a.id], IdKey)
      && (forall k :: k in col && k != a.id ==> k in r.value && r.value[k] == col[k])
  {
    UpdateSetsDate(col, a);
  }

  class AppointmentService {
    const repository: AppointmentRepository

    ghost predicate Valid()
      reads this, repository
    {
      repository.Valid()
    }

    /** A service over a repository holding the given appointments. */
    constructor (initial: Collection)
      requires Keyed(initial, IdKey)
      ensures fresh(repository) && repository.collection == initial && Valid()
    {
      repository := new AppointmentRepository(initial);
    }

    /** addNewAppointment: the repository's insert, duplicate check included. */
    method AddNewAppointment(appointment: Appointment) returns (r: Result<(), Exception>)
      requires Valid()
      modifies repository
      ensures Valid()
      ensures var expected := Inserted(old(repository.collection), appointment);
        && (r.Err? <==> expected.Err?)
        && (r.Err? ==> r.error == expected.error && repository.collection == old(repository.collection))
        && (r.Ok? ==> repository.collection == expected.value)
    {
      r := repository.Insert(appointment);
    }

    /** deleteAppointment at time now. */
    method DeleteAppointment(id: string, now: Date) returns (r: Result<(), Exception>)
      requires Valid()
      modifies repository
      ensures Valid()
      ensures var expected := DeleteOutcome(old(repository.collection), id, now);
        && (r.Err? <==> expected.Err?)
        && (r.Err? ==> r.error == expected.error && repository.collection == old(repository.collection))
        && (r.Ok? ==> repository.collection == expected.value)
    {
      var existing := repository.FindById(id, now);
      if existing.Err? {
        return Err(existing.error);
      }
      if existing.value.None? {
        return Err(IllegalArgumentException(NotFound));
      }
      repository.Delete(id);
      r := Ok(());
    }

    /** getAppointment at time now: the repository's findById. */
    method GetAppointment(id: string, now: Date) returns (r: Result<Option<Appointment>, Exception>)
      ensures r == Found(repository.collection, id, now)
    {
      r := repository.FindById(id, now);
    }

    /** updateAppointment at time now: check that it exists, then the repository's partial update. */
    method UpdateAppointment(appointment: Appointment, now: Date) returns (r: Result<(), Exception>)
      requires Valid()
      modifies repository
      ensures Valid()
      ensures var expected := UpdateOutcome(old(repository.collection), appointment, now);
        && (r.Err? <==> expected.Err?)
        && (r.Err? ==> r.error == expected.error && repository.collection == old(repository.collection))
        && (r.Ok? ==> repository.collection == expected.value)
    {
      var existing := repository.FindById(appointment.id, now);
      if existing.Err? {
        return Err(existing.error);
      }
      if existing.value.None? {
        return Err(IllegalArgumentException(NotFound));
      }
      repository.Update(appointment);
      r := Ok(());
    }
  }
}
