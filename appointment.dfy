/**
 * An appointment of the task tracker: an immutable value whose ID,
 * date and description are checked once, when it is created. The clock
 * the date check compares against is a parameter.
 */
module Appointments {
  import opened Wrappers
  import opened JavaLang

  /** A point in time, in milliseconds since the epoch. */
  type Date = int

  const MaxIdLength := 10
  const MaxDescriptionLength := 50

  datatype Appointment = Appointment(id: string, date: Date, description: string)

  /** A string that is not null and has at most max characters. */
  predicate Within(s: Option<string>, max: nat)
  {
    s.Some? && |s.value| <= max
  }

  /** The rules the constructor enforces at time now: the date must not be before now. */
  predicate ValidAppointment(id: Option<string>, date: Option<Date>, description: Option<string>, now: Date)
  {
    Within(id, MaxIdLength) && date.Some? && date.value >= now && Within(description, MaxDescriptionLength)
  }

  /**
   * The message of the exception the constructor throws at time now: the
   * first rule broken, in the order ID, date, description (the last
   * message says "task"); None when all hold.
   */
  function AppointmentViolation(id: Option<string>, date: Option<Date>, description: Option<string>, now: Date)
    : (r: Option<string>)
    ensures r == None <==> ValidAppointment(id, date, description, now)
    ensures r == Some("Invalid appointment ID") <==> !Within(id, MaxIdLength)
    ensures r == Some("Invalid appointment date") <==> Within(id, MaxIdLength) && (date.None? || date.value < now)
    ensures r == Some("Invalid task description") <==>
      Within(id, MaxIdLength) && date.Some? && date.value >= now && !Within(description, MaxDescriptionLength)
  {
    if !Within(id, MaxIdLength) then Some("Invalid appointment ID")
    else if date.None? || date.value < now then Some("Invalid appointment date")
    else if !Within(description, MaxDescriptionLength) then Some("Invalid task description")
    else None
  }

  /** new Appointment(...) at time now: the exception, or the appointment holding the three fields. */
  function NewAppointment(id: Option<string>, date: Option<Date>, description: Option<string>, now: Date)
    : (r: Result<Appointment, Exception>)
    ensures r.Ok? <==> ValidAppointment(id, date, description, now)
    ensures r.Err? ==> r.error == IllegalArgumentException(AppointmentViolation(id, date, description, now).value)
    ensures r.Ok? ==> r.value == Appointment(id.value, date.value, description.value)
  {
    match AppointmentViolation(id, date, description, now)
    case Some(message) => Err(IllegalArgumentException(message))
    case None => Ok(Appointment(id.value, date.value, description.value))
  }

  /** An appointment's fields obey the rules at time now. */
  predicate ValidAt(a: Appointment, now: Date)
  {
    ValidAppointment(Some(a.id), Some(a.date), Some(a.description), now)
  }

  /**
   * The date check is strict: a date equal to now is accepted, and a date
   * one millisecond earlier is rejected with "Invalid appointment date".
   */
  lemma DateBoundary(id: string, description: string, now: Date)
    requires |id| <= MaxIdLength && |description| <= MaxDescriptionLength
    ensures NewAppointment(Some(id), Some(now), Some(description), now) == Ok(Appointment(id, now, description))
    ensures NewAppointment(Some(id), Some(now - 1), Some(description), now)
            == Err(IllegalArgumentException("Invalid appointment date"))
  {
  }

  /**
   * Whether an appointment's fields pass the constructor depends on the
   * clock: they keep passing up to its date and fail at every later time.
   */
  lemma ValidUntilDate(a: Appointment, now: Date, later: Date)
    requires ValidAt(a, now) && now <= later
    ensures ValidAt(a, later) <==> later <= a.date
  {
  }
}
