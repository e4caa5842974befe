/**
 * The appointments collection: appointments to and from documents,
 * insert with duplicate-ID protection, lookup by ID (which re-runs the
 * date check against the clock), a partial update, and delete.
 */
module AppointmentRepo {
  import opened Wrappers
  import opened JavaLang
  import opened Documents
  import opened Appointments

  const IdKey := "appointmentID"
  const DateKey := "appointmentDate"
  const DescriptionKey := "description"

  const DuplicateId := "Appointment ID already exists"

  /** toDocument: the ID and description as strings, the date as a date. */
  function ToDocument(a: Appointment): Document
  {
    map[IdKey := Str(a.id), DateKey := Date(a.date), DescriptionKey := Str(a.description)]
  }

  /** fromDocument at time now: the three fields read back and passed through the validating constructor. */
  function FromDocument(doc: Document, now: Date): Result<Appointment, Exception>
  {
    NewAppointment(GetString(doc, IdKey), GetDate(doc, DateKey), GetString(doc, DescriptionKey), now)
  }

  /**
   * fromDocument(toDocument(a)) gives back a's ID, date and description
   * whenever a still passes the checks, that is until its date passes.
   */
  lemma DocumentRoundTrip(a: Appointment, now: Date)
    requires ValidAt(a, now)
    ensures FromDocument(ToDocument(a), now) == Ok(a)
  {
    assert GetString(ToDocument(a), IdKey) == Some(a.id);
    assert GetDate(ToDocument(a), DateKey) == Some(a.date);
    assert GetString(ToDocument(a), DescriptionKey) == Some(a.description);
  }

  /** insert: a duplicate ID is refused with the store unchanged; otherwise the document is added. */
  function Inserted(col: Collection, a: Appointment): Result<Collection, Exception>
  {
    if a.id in col then Err(IllegalArgumentException(DuplicateId)) else Ok(col[a.id := ToDocument(a)])
  }

  /** findById at time now: null for an absent ID, else the stored document read through fromDocument. */
  function Found(col: Collection, id: string, now: Date): Result<Option<Appointment>, Exception>
  {
    if id !in col then Ok(None)
    else
      match FromDocument(col[id], now)
      case Err(e) => Err(e)
      case Ok(a) => Ok(Some(a))
  }

  /**
   * The `$set` document update builds. The date is always written: an
   * appointment's date is never null. The description is written when
   * not empty.
   */
  function UpdateDocument(a: Appointment): Document
  {
    AppendIfNonEmpty(map[DateKey := Date(a.date)], DescriptionKey, Some(a.description))
  }

  /** update: updateOne on the appointment's ID. */
  function Updated(col: Collection, a: Appointment): Collection
  {
    var fields := UpdateDocument(a);
    if fields == map[] then col else UpdateOne(col, a.id, fields)
  }

  /** delete: deleteOne on the ID. */
  function Deleted(col: Collection, id: string): Collection
  {
    col - {id}
  }

  /**
   * After update, the stored document under the appointment's ID has its
   * date, and its description when that is not empty (the stored one
   * otherwise); its other fields and every other document stay. With no
   * document under the ID nothing changes.
   */
  lemma UpdateSetsDate(col: Collection, a: Appointment)
    ensures Updated(col, a).Keys == col.Keys
    ensures forall k :: k in col && k != a.id ==> Updated(col, a)[k] == col[k]
    ensures a.id !in col ==> Updated(col, a) == col
    ensures a.id in col ==>
      var before := col[a.id];
      var after := Updated(col, a)[a.id];
      && GetString(after, IdKey) == GetString(before, IdKey)
      && GetDate(after, DateKey) == Some(a.date)
      && GetString(after, DescriptionKey) == (if a.description != "" then Some(a.description) else GetString(before, DescriptionKey))
  {
    assert DateKey in UpdateDocument(a);
  }

  lemma UpdatedKeyed(col: Collection, a: Appointment)
    requires Keyed(col, IdKey)
    ensures Keyed(Updated(col, a), IdKey)
  {
    UpdateOneKeyed(col, IdKey, a.id, UpdateDocument(a));
  }

  /** Insert and delete keep every document under its own ID. */
  lemma InsertDeleteKeyed(col: Collection, a: Appointment, id: string)
    requires Keyed(col, IdKey)
    ensures Inserted(col, a).Ok? ==> Keyed(Inserted(col, a).value, IdKey)
    ensures Keyed(Deleted(col, id), IdKey)
  {
    assert GetString(ToDocument(a), IdKey) == Some(a.id);
  }

  /**
   * Inserting an ID already stored throws "Appointment ID already exists";
   * otherwise the new document is stored under its ID and nothing else
   * changes. Delete removes exactly that ID, and lookups of an absent ID
   * return null.
   */
  lemma CrudEffects(col: Collection, a: Appointment, id: string, now: Date)
    ensures a.id in col ==> Inserted(col, a) == Err(IllegalArgumentException(DuplicateId))
    ensures a.id !in col ==> Inserted(col, a) == Ok(col[a.id := ToDocument(a)])
    ensures Deleted(col, id).Keys == col.Keys - {id}
    ensures forall k :: k in Deleted(col, id) ==> Deleted(col, id)[k] == col[k]
    ensures Found(Deleted(col, id), id, now) == Ok(None)
    ensures id !in col ==> Found(col, id, now) == Ok(None)
  {
  }

  /**
   * A stored appointment is found again up to its date; once the date has
   * passed, looking it up throws "Invalid appointment date".
   */
  lemma FoundUntilDatePasses(col: Collection, a: Appointment, now: Date)
    requires a.id in col && col[a.id] == ToDocument(a)
    requires |a.id| <= MaxIdLength && |a.description| <= MaxDescriptionLength
    ensures now <= a.date ==> Found(col, a.id, now) == Ok(Some(a))
    ensures now > a.date ==> Found(col, a.id, now) == Err(IllegalArgumentException("Invalid appointment date"))
  {
    assert GetString(ToDocument(a), IdKey) == Some(a.id);
    assert GetDate(ToDocument(a), DateKey) == Some(a.date);
    assert GetString(ToDocument(a), DescriptionKey) == Some(a.description);
  }

  class AppointmentRepository {
    var collection: Collection

    ghost predicate Valid()
      reads this
    {
      Keyed(collection, IdKey)
    }

    /** A repository over the appointments the collection already holds. */
    constructor (initial: Collection)
      requires Keyed(initial, IdKey)
      ensures collection == initial && Valid()
    {
      collection := initial;
    }

    /** insert: a duplicate key becomes IllegalArgumentException. */
    method Insert(appointment: Appointment) returns (r: Result<(), Exception>)
      requires Valid()
      modifies this
      ensures Valid()
      ensures var expected := Inserted(old(collection), appointment);
        && (r.Err? <==> expected.Err?)
        && (r.Err? ==> r.error == expected.error && collection == old(collection))
        && (r.Ok? ==> collection == expected.value)
    {
      InsertDeleteKeyed(collection, appointment, appointment.id);
      if appointment.id in collection {
        return Err(IllegalArgumentException(DuplicateId));
      }
      collection := collection[appointment.id := ToDocument(appointment)];
      r := Ok(());
    }

    /** findById at time now. */
    method FindById(id: string, now: Date) returns (r: Result<Option<Appointment>, Exception>)
      ensures r == Found(collection, id, now)
    {
      if id !in collection {
        return Ok(None);
      }
      var doc := collection[id];
      match NewAppointment(GetString(doc, IdKey), GetDate(doc, DateKey), GetString(doc, DescriptionKey), now) {
        case Err(e) => r := Err(e);
        case Ok(a) => r := Ok(Some(a));
      }
    }

    /** update: the `$set` document is built field by field. */
    method Update(appointment: Appointment)
      requires Valid()
      modifies this
      ensures Valid()
      ensures collection == Updated(old(collection), appointment)
    {
      UpdatedKeyed(collection, appointment);
      var fields: Document := map[];
      fields := fields[DateKey := Date(appointment.date)];
      if appointment.description != "" {
        fields := fields[DescriptionKey := Str(appointment.description)];
      }
      assert fields == UpdateDocument(appointment);
      if fields == map[] {
        return;
      }
      collection := UpdateOne(collection, appointment.id, fields);
    }

    /** delete. */
    method Delete(id: string)
      requires Valid()
      modifies this
      ensures Valid()
      ensures collection == Deleted(old(collection), id)
    {
      collection := collection - {id};
    }
  }
}
