/**
 * The contacts collection: contacts to and from documents, insert with
 * duplicate-ID protection, lookup by ID, a partial update of the fields
 * that are neither null nor empty, and delete.
 */
module ContactRepo {
  import opened Wrappers
  import opened JavaLang
  import opened Documents
  import opened Contacts

  const IdKey := "contactID"
  const FirstNameKey := "firstName"
  const LastNameKey := "lastName"
  const PhoneKey := "phone"
  const AddressKey := "address"

  const DuplicateId := "Contact ID already exists"

  /** toDocument: one field per contact field, under the contact's ID key. */
  function ToDocument(f: ContactFields): Document
  {
    var d0 := AppendString(map[], IdKey, Some(f.id));
    var d1 := AppendString(d0, FirstNameKey, f.firstName);
    var d2 := AppendString(d1, LastNameKey, f.lastName);
    var d3 := AppendString(d2, PhoneKey, f.phone);
    AppendString(d3, AddressKey, f.address)
  }

  /** fromDocument: the five fields read back and passed through the validating constructor. */
  function FromDocument(doc: Document): Result<ContactFields, Exception>
  {
    var id := GetString(doc, IdKey);
    var firstName := GetString(doc, FirstNameKey);
    var lastName := GetString(doc, LastNameKey);
    var phone := GetString(doc, PhoneKey);
    var address := GetString(doc, AddressKey);
    match ContactViolation(id, firstName, lastName, phone, address)
    case Some(message) => Err(IllegalArgumentException(message))
    case None => Ok(ContactFields(id.value, firstName, lastName, phone, address))
  }

  /** Each field of a contact is read back from its document unchanged. */
  lemma ToDocumentFields(f: ContactFields)
    ensures GetString(ToDocument(f), IdKey) == Some(f.id)
    ensures GetString(ToDocument(f), FirstNameKey) == f.firstName
    ensures GetString(ToDocument(f), LastNameKey) == f.lastName
    ensures GetString(ToDocument(f), PhoneKey) == f.phone
    ensures GetString(ToDocument(f), AddressKey) == f.address
  {
    var d0 := AppendString(map[], IdKey, Some(f.id));
    var d1 := AppendString(d0, FirstNameKey, f.firstName);
    var d2 := AppendString(d1, LastNameKey, f.lastName);
    var d3 := AppendString(d2, PhoneKey, f.phone);
    assert GetString(d3, IdKey) == GetString(d2, IdKey) == GetString(d1, IdKey) == GetString(d0, IdKey);
    assert GetString(d3, FirstNameKey) == GetString(d2, FirstNameKey) == GetString(d1, FirstNameKey);
    assert GetString(d3, LastNameKey) == GetString(d2, LastNameKey);
  }

  /** fromDocument(toDocument(c)) gives back all five fields of a contact that obeys the rules. */
  lemma DocumentRoundTrip(f: ContactFields)
    requires ValidFields(f)
    ensures FromDocument(ToDocument(f)) == Ok(f)
  {
    ToDocumentFields(f);
  }

  /** A stored document that breaks a rule cannot be read back: fromDocument throws the constructor's exception. */
  lemma InvalidDocumentRejected(doc: Document)
    requires ContactViolation(GetString(doc, IdKey), GetString(doc, FirstNameKey), GetString(doc, LastNameKey),
                              GetString(doc, PhoneKey), GetString(doc, AddressKey)).Some?
    ensures FromDocument(doc).Err?
    ensures FromDocument(doc).error == IllegalArgumentException(
      ContactViolation(GetString(doc, IdKey), GetString(doc, FirstNameKey), GetString(doc, LastNameKey),
                       GetString(doc, PhoneKey), GetString(doc, AddressKey)).value)
  {
  }

  /** A contact read from a document has the ID that document is stored under. */
  lemma FromDocumentId(doc: Document, id: string)
    requires GetString(doc, IdKey) == Some(id) && FromDocument(doc).Ok?
    ensures FromDocument(doc).value.id == id && ValidFields(FromDocument(doc).value)
  {
  }

  /** A contact found under an ID carries that ID, obeys the rules, and holds the stored document's fields. */
  lemma FoundFields(col: Collection, id: string)
    requires Keyed(col, IdKey) && Found(col, id).Ok? && Found(col, id).value.Some?
    ensures var f := Found(col, id).value.value;
      && id in col && f.id == id && ValidFields(f)
      && GetString(col[id], FirstNameKey) == f.firstName && GetString(col[id], LastNameKey) == f.lastName
      && GetString(col[id], PhoneKey) == f.phone && GetString(col[id], AddressKey) == f.address
  {
    FromDocumentId(col[id], id);
  }

  /** insert: a duplicate ID is refused with the store unchanged; otherwise the document is added. */
  function Inserted(col: Collection, f: ContactFields): Result<Collection, Exception>
  {
    if f.id in col then Err(IllegalArgumentException(DuplicateId)) else Ok(col[f.id := ToDocument(f)])
  }

  /** findById: null for an absent ID, else the stored document read through fromDocument. */
  function Found(col: Collection, id: string): Result<Option<ContactFields>, Exception>
  {
    if id !in col then Ok(None)
    else
      match FromDocument(col[id])
      case Err(e) => Err(e)
      case Ok(f) => Ok(Some(f))
  }

  /** The `$set` document update builds: the fields that are neither null nor empty. */
  function UpdateDocument(f: ContactFields): Document
  {
    var u1 := AppendIfNonEmpty(map[], FirstNameKey, f.firstName);
    var u2 := AppendIfNonEmpty(u1, LastNameKey, f.lastName);
    var u3 := AppendIfNonEmpty(u2, PhoneKey, f.phone);
    AppendIfNonEmpty(u3, AddressKey, f.address)
  }

  /** update: nothing when no field qualifies, else updateOne on the contact's ID. */
  function Updated(col: Collection, f: ContactFields): Collection
  {
    var fields := UpdateDocument(f);
    if fields == map[] then col else UpdateOne(col, f.id, fields)
  }

  /** delete: deleteOne on the ID. */
  function Deleted(col: Collection, id: string): Collection
  {
    col - {id}
  }

  /** The field a partial update leaves: the new value when non-empty, the stored one otherwise. */
  function Kept(stored: Option<string>, given: Option<string>): Option<string>
  {
    if NonEmpty(given) then given else stored
  }

  lemma UpdateDocumentFields(f: ContactFields)
    ensures IdKey !in UpdateDocument(f)
    ensures UpdateDocument(f).Keys <= {FirstNameKey, LastNameKey, PhoneKey, AddressKey}
    ensures FirstNameKey in UpdateDocument(f) <==> NonEmpty(f.firstName)
    ensures LastNameKey in UpdateDocument(f) <==> NonEmpty(f.lastName)
    ensures PhoneKey in UpdateDocument(f) <==> NonEmpty(f.phone)
    ensures AddressKey in UpdateDocument(f) <==> NonEmpty(f.address)
    ensures NonEmpty(f.firstName) ==> UpdateDocument(f)[FirstNameKey] == Str(f.firstName.value)
    ensures NonEmpty(f.lastName) ==> UpdateDocument(f)[LastNameKey] == Str(f.lastName.value)
    ensures NonEmpty(f.phone) ==> UpdateDocument(f)[PhoneKey] == Str(f.phone.value)
    ensures NonEmpty(f.address) ==> UpdateDocument(f)[AddressKey] == Str(f.address.value)
  {
  }

  /**
   * After update, each of the four fields of the stored document is the
   * given value when that is neither null nor empty and the stored value
   * otherwise; the ID field and every other document stay as they were.
   * With no such field, or no document under the ID, nothing changes.
   */
  lemma UpdateWritesNonEmpty(col: Collection, f: ContactFields)
    ensures Updated(col, f).Keys == col.Keys
    ensures forall k :: k in col && k != f.id ==> Updated(col, f)[k] == col[k]
    ensures f.id !in col ==> Updated(col, f) == col
    ensures !NonEmpty(f.firstName) && !NonEmpty(f.lastName) && !NonEmpty(f.phone) && !NonEmpty(f.address) ==>
      Updated(col, f) == col
    ensures f.id in col ==>
      var before := col[f.id];
      var after := Updated(col, f)[f.id];
      && GetString(after, IdKey) == GetString(before, IdKey)
      && GetString(after, FirstNameKey) == Kept(GetString(before, FirstNameKey), f.firstName)
      && GetString(after, LastNameKey) == Kept(GetString(before, LastNameKey), f.lastName)
      && GetString(after, PhoneKey) == Kept(GetString(before, PhoneKey), f.phone)
      && GetString(after, AddressKey) == Kept(GetString(before, AddressKey), f.address)
  {
    UpdateDocumentFields(f);
    if !NonEmpty(f.firstName) && !NonEmpty(f.lastName) && !NonEmpty(f.phone) && !NonEmpty(f.address) {
      assert UpdateDocument(f) == map[];
    }
  }

  lemma UpdatedKeyed(col: Collection, f: ContactFields)
    requires Keyed(col, IdKey)
    ensures Keyed(Updated(col, f), IdKey)
  {
    UpdateDocumentFields(f);
    UpdateOneKeyed(col, IdKey, f.id, UpdateDocument(f));
  }

  /** Insert and delete keep every document under its own ID; a refused insert changes nothing. */
  lemma InsertDeleteKeyed(col: Collection, f: ContactFields, id: string)
    requires Keyed(col, IdKey)
    ensures Inserted(col, f).Ok? ==> Keyed(Inserted(col, f).value, IdKey)
    ensures Keyed(Deleted(col, id), IdKey)
  {
    ToDocumentFields(f);
  }

  /**
   * Inserting an ID already stored throws "Contact ID already exists";
   * otherwise the new document is stored under its ID and nothing else
   * changes. Delete removes exactly that ID, and lookups of an absent ID
   * return null.
   */
  lemma CrudEffects(col: Collection, f: ContactFields, id: string)
    ensures f.id in col ==> Inserted(col, f) == Err(IllegalArgumentException(DuplicateId))
    ensures f.id !in col ==> Inserted(col, f) == Ok(col[f.id := ToDocument(f)])
    ensures Deleted(col, id).Keys == col.Keys - {id}
    ensures forall k :: k in Deleted(col, id) ==> Deleted(col, id)[k] == col[k]
    ensures Found(Deleted(col, id), id) == Ok(None)
    ensures id !in col ==> Found(col, id) == Ok(None)
  {
  }

  /** A contact inserted with valid fields is found again with the same fields. */
  lemma InsertThenFind(col: Collection, f: ContactFields)
    requires ValidFields(f) && f.id !in col
    ensures Found(Inserted(col, f).value, f.id) == Ok(Some(f))
  {
    DocumentRoundTrip(f);
  }

  class ContactRepository {
    var collection: Collection

    ghost predicate Valid()
      reads this
    {
      Keyed(collection, IdKey)
    }

    /** A repository over the contacts the collection already holds. */
    constructor (initial: Collection)
      requires Keyed(initial, IdKey)
      ensures collection == initial && Valid()
    {
      collection := initial;
    }

    /** insert: a duplicate key becomes IllegalArgumentException. */
    method Insert(contact: Contact) returns (r: Result<(), Exception>)
      requires Valid()
      modifies this
      ensures Valid()
      ensures var expected := Inserted(old(collection), contact.Fields());
        && (r.Err? <==> expected.Err?)
        && (r.Err? ==> r.error == expected.error && collection == old(collection))
        && (r.Ok? ==> collection == expected.value)
    {
      InsertDeleteKeyed(collection, contact.Fields(), contact.id);
      var doc := ToDocument(contact.Fields());
      if contact.id in collection {
        return Err(IllegalArgumentException(DuplicateId));
      }
      collection := collection[contact.id := doc];
      r := Ok(());
    }

    /** findById: null for an absent ID; a new Contact built by the validating constructor otherwise. */
    method FindById(id: string) returns (r: Result<Option<Contact>, Exception>)
      ensures r.Err? <==> Found(collection, id).Err?
      ensures r.Err? ==> r.error == Found(collection, id).error
      ensures r.Ok? ==> (r.value.None? <==> Found(collection, id).value.None?)
      ensures r.Ok? && r.value.Some? ==>
        Found(collection, id).value.Some? && fresh(r.value.value) && r.value.value.Fields() == Found(collection, id).value.value
    {
      if id !in collection {
        return Ok(None);
      }
      var doc := collection[id];
      var c := Contact.New(GetString(doc, IdKey), GetString(doc, FirstNameKey), GetString(doc, LastNameKey),
                           GetString(doc, PhoneKey), GetString(doc, AddressKey));
      match c {
        case Err(e) => r := Err(e);
        case Ok(contact) => r := Ok(Some(contact));
      }
    }

    /** update: the `$set` document is built one non-empty field at a time. */
    method Update(contact: Contact)
      requires Valid()
      modifies this
      ensures Valid()
      ensures collection == Updated(old(collection), contact.Fields())
    {
      UpdatedKeyed(collection, contact.Fields());
      var fields: Document := map[];
      if contact.firstName.Some? && contact.firstName.value != "" {
        fields := fields[FirstNameKey := Str(contact.firstName.value)];
      }
      assert fields == AppendIfNonEmpty(map[], FirstNameKey, contact.firstName);
      if contact.lastName.Some? && contact.lastName.value != "" {
        fields := fields[LastNameKey := Str(contact.lastName.value)];
      }
      assert fields == AppendIfNonEmpty(AppendIfNonEmpty(map[], FirstNameKey, contact.firstName), LastNameKey, contact.lastName);
      ghost var u2 := fields;
      if contact.phone.Some? && contact.phone.value != "" {
        fields := fields[PhoneKey := Str(contact.phone.value)];
      }
      assert fields == AppendIfNonEmpty(u2, PhoneKey, contact.phone);
      ghost var u3 := fields;
      if contact.address.Some? && contact.address.value != "" {
        fields := fields[AddressKey := Str(contact.address.value)];
      }
      assert fields == AppendIfNonEmpty(u3, AddressKey, contact.address);
      assert fields == UpdateDocument(contact.Fields());
      if fields == map[] {
        return;
      }
      collection := UpdateOne(collection, contact.id, fields);
    }

    /** delete. */
    method Delete(id: string)
      requires Valid()
      modifies this
      ensures Valid()
      ensures collection == Deleted(old(collection), id)
    {
      collection := collection - {id};
    }
  }
}
