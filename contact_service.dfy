/**
 * The contact service's business rules over the repository: add relies on
 * the duplicate-ID check, delete and update require the contact to exist,
 * and update goes through the setters, so it is not re-validated.
 */
module ContactServices {
  import opened Wrappers
  import opened JavaLang
  import opened Documents
  import opened Contacts
  import opened ContactRepo

  const NotFound := "Contact not found"

  /** deleteContact: the lookup's exception, "Contact not found", or the store without the contact. */
  function DeleteOutcome(col: Collection, id: string): Result<Collection, Exception>
  {
    match Found(col, id)
    case Err(e) => Err(e)
    case Ok(None) => Err(IllegalArgumentException(NotFound))
    case Ok(Some(_)) => Ok(Deleted(col, id))
  }

  /** The fetched contact after the setters for the non-empty arguments. */
  function Applied(f: ContactFields, firstName: Option<string>, lastName: Option<string>,
                   phone: Option<string>, address: Option<string>): ContactFields
  {
    f.(firstName := Kept(f.firstName, firstName), lastName := Kept(f.lastName, lastName),
       phone := Kept(f.phone, phone), address := Kept(f.address, address))
  }

  /** updateContact: the lookup's exception, "Contact not found", or the update of the changed contact. */
  function UpdateOutcome(col: Collection, id: string, firstName: Option<string>, lastName: Option<string>,
                         phone: Option<string>, address: Option<string>): Result<Collection, Exception>
  {
    match Found(col, id)
    case Err(e) => Err(e)
    case Ok(None) => Err(IllegalArgumentException(NotFound))
    case Ok(Some(f)) => Ok(Updated(col, Applied(f, firstName, lastName, phone, address)))
  }

  /**
   * Deleting a missing contact throws "Contact not found" and changes
   * nothing; deleting a stored one that reads back makes a later lookup
   * return null and keeps every other contact.
   */
  lemma DeleteThenGet(col: Collection, id: string)
    ensures id !in col ==> DeleteOutcome(col, id) == Err(IllegalArgumentException(NotFound))
    ensures Found(col, id).Ok? && Found(col, id).value.Some? ==>
      && DeleteOutcome(col, id).Ok?
      && Found(DeleteOutcome(col, id).value, id) == Ok(None)
      && forall k :: k in col && k != id ==> k in DeleteOutcome(col, id).value && DeleteOutcome(col, id).value[k] == col[k]
  {
    CrudEffects(col, ContactFields(id, None, None, None, None), id);
  }

  /**
   * Updating a stored contact replaces exactly the arguments that are
   * neither null nor empty and keeps its other fields; a call with none
   * leaves the store as it was; a missing contact throws.
   */
  lemma UpdateReplacesNonEmpty(col: Collection, id: string, firstName: Option<string>, lastName: Option<string>,
                               phone: Option<string>, address: Option<string>)
    requires Keyed(col, IdKey)
    ensures id !in col ==> UpdateOutcome(col, id, firstName, lastName, phone, address) == Err(IllegalArgumentException(NotFound))
    ensures Found(col, id).Ok? && Found(col, id).value.Some? ==>
      var f := Found(col, id).value.value;
      var r := UpdateOutcome(col, id, firstName, lastName, phone, address);
      && r.Ok? && id in r.value
      && GetString(r.value[id], IdKey) == Some(id)
      && GetString(r.value[id], FirstNameKey) == Kept(f.firstName, firstName)
      && GetString(r.value[id], LastNameKey) == Kept(f.lastName, lastName)
      && GetString(r.value[id], PhoneKey) == Kept(f.phone, phone)
      && GetString(r.value[id], AddressKey) == Kept(f.address, address)
      && (forall k :: k in col && k != id ==> k in r.value && r.value[k] == col[k])
      && (!NonEmpty(firstName) && !NonEmpty(lastName) && !NonEmpty(phone) && !NonEmpty(address) ==> r.value == col)
  {
    if Found(col, id).Ok? && Found(col, id).value.Some? {
      var f := Found(col, id).value.value;
      FoundFields(col, id);
      var g := Applied(f, firstName, lastName, phone, address);
      assert UpdateOutcome(col, id, firstName, lastName, phone, address) == Ok(Updated(col, g));
      UpdateWritesNonEmpty(col, g);
      if !NonEmpty(firstName) && !NonEmpty(lastName) && !NonEmpty(phone) && !NonEmpty(address) {
        AllKeptUnchanged(col, f, g);
      }
    }
  }

  /** Writing back a contact's own fields, when they were read from its document, changes nothing. */
  lemma AllKeptUnchanged(col: Collection, f: ContactFields, g: ContactFields)
    requires f.id in col && g == f
    requires GetString(col[f.id], FirstNameKey) == f.firstName && GetString(col[f.id], LastNameKey) == f.lastName
    requires GetString(col[f.id], PhoneKey) == f.phone && GetString(col[f.id], AddressKey) == f.address
    ensures Updated(col, g) == col
  {
    UpdateDocumentFields(g);
    SetSameFields(col[f.id], UpdateDocument(g));
  }

  /**
   * The new values are not checked against the constructor's rules: an
   * update to an 11-character first name succeeds, and from then on the
   * contact can no longer be read back, so a lookup throws "Invalid first
   * name".
   */
  lemma UpdateNotRevalidated(col: Collection, id: string, longName: string)
    requires Keyed(col, IdKey)
    requires Found(col, id).Ok? && Found(col, id).value.Some?
    requires |longName| == MaxNameLength + 1
    ensures UpdateOutcome(col, id, Some(longName), None, None, None).Ok?
    ensures Found(UpdateOutcome(col, id, Some(longName), None, None, None).value, id)
            == Err(IllegalArgumentException("Invalid first name"))
  {
    UpdateReplacesNonEmpty(col, id, Some(longName), None, None, None);
    var after := UpdateOutcome(col, id, Some(longName), None, None, None).value[id];
    assert GetString(after, FirstNameKey) == Some(longName);
  }

  /** The setter calls of updateContact: one per argument that is neither null nor empty. */
  method ApplyNonEmpty(existing: Contact, firstName: Option<string>, lastName: Option<string>,
                       phone: Option<string>, address: Option<string>)
    modifies existing
    ensures existing.Fields() == Applied(old(existing.Fields()), firstName, lastName, phone, address)
  {
    ghost var f := existing.Fields();
    if firstName.Some? && firstName.value != "" {
      existing.SetFirstName(firstName);
    }
    assert existing.Fields() == f.(firstName := Kept(f.firstName, firstName));
    if lastName.Some? && lastName.value != "" {
      existing.SetLastName(lastName);
    }
    assert existing.Fields() == f.(firstName := Kept(f.firstName, firstName), lastName := Kept(f.lastName, lastName));
    ghost var f2 := existing.Fields();
    if phone.Some? && phone.value != "" {
      existing.SetPhone(phone);
    }
    assert existing.Fields() == f2.(phone := Kept(f.phone, phone));
    ghost var f3 := existing.Fields();
    if address.Some? && address.value != "" {
      existing.SetAddress(address);
    }
    assert existing.Fields() == f3.(address := Kept(f.address, address));
  }

  class ContactService {
    const repository: ContactRepository

    ghost predicate Valid()
      reads this, repository
    {
      repository.Valid()
    }

    /** A service over a repository holding the given contacts. */
    constructor (initial: Collection)
      requires Keyed(initial, IdKey)
      ensures fresh(repository) && repository.collection == initial && Valid()
    {
      repository := new ContactRepository(initial);
    }

    /** addNewContact: the repository's insert, duplicate check included. */
    method AddNewContact(contact: Contact) returns (r: Result<(), Exception>)
      requires Valid()
      modifies repository
      ensures Valid()
      ensures var expected := Inserted(old(repository.collection), contact.Fields());
        && (r.Err? <==> expected.Err?)
        && (r.Err? ==> r.error == expected.error && repository.collection == old(repository.collection))
        && (r.Ok? ==> repository.collection == expected.value)
    {
      r := repository.Insert(contact);
    }

    /** deleteContact. */
    method DeleteContact(id: string) returns (r: Result<(), Exception>)
      requires Valid()
      modifies repository
      ensures Valid()
      ensures var expected := DeleteOutcome(old(repository.collection), id);
        && (r.Err? <==> expected.Err?)
        && (r.Err? ==> r.error == expected.error && repository.collection == old(repository.collection))
        && (r.Ok? ==> repository.collection == expected.value)
    {
      var existing := repository.FindById(id);
      if existing.Err? {
        return Err(existing.error);
      }
      if existing.value.None? {
        return Err(IllegalArgumentException(NotFound));
      }
      repository.Delete(id);
      r := Ok(());
    }

    /** updateContact: fetch, apply the setters for the non-empty arguments, write back. */
    method UpdateContact(id: string, firstName: Option<string>, lastName: Option<string>,
                         phone: Option<string>, address: Option<string>) returns (r: Result<(), Exception>)
      requires Valid()
      modifies repository
      ensures Valid()
      ensures var expected := UpdateOutcome(old(repository.collection), id, firstName, lastName, phone, address);
        && (r.Err? <==> expected.Err?)
        && (r.Err? ==> r.error == expected.error && repository.collection == old(repository.collection))
        && (r.Ok? ==> repository.collection == expected.value)
    {
      ghost var col := repository.collection;
      var found := repository.FindById(id);
      if found.Err? {
        assert UpdateOutcome(col, id, firstName, lastName, phone, address) == Err(found.error);
        return Err(found.error);
      }
      if found.value.None? {
        assert UpdateOutcome(col, id, firstName, lastName, phone, address) == Err(IllegalArgumentException(NotFound));
        return Err(IllegalArgumentException(NotFound));
      }
      var existing := found.value.value;
      ghost var f := existing.Fields();
      FoundFields(col, id);
      assert UpdateOutcome(col, id, firstName, lastName, phone, address)
          == Ok(Updated(col, Applied(f, firstName, lastName, phone, address)));
      ApplyNonEmpty(existing, firstName, lastName, phone, address);
      repository.Update(existing);
      r := Ok(());
    }

    /** getContact: the repository's findById. */
    method GetContact(id: string) returns (r: Result<Option<Contact>, Exception>)
      ensures r.Err? <==> Found(repository.collection, id).Err?
      ensures r.Err? ==> r.error == Found(repository.collection, id).error
      ensures r.Ok? ==> (r.value.None? <==> Found(repository.collection, id).value.None?)
      ensures r.Ok? && r.value.Some? ==>
        Found(repository.collection, id).value.Some? && fresh(r.value.value) && r.value.value.Fields() == Found(repository.collection, id).value.value
    {
      r := repository.FindById(id);
    }
  }
}
