/**
 * A contact of the task tracker: an ID fixed at construction and four
 * fields that setters overwrite. The constructor enforces the length
 * rules; the setters do not.
 */
module Contacts {
  import opened Wrappers
  import opened JavaLang

  const MaxIdLength := 10
  const MaxNameLength := 10
  const PhoneLength := 10
  const MaxAddressLength := 30

  /** A string that is not null and has at most max characters. */
  predicate Within(s: Option<string>, max: nat)
  {
    s.Some? && |s.value| <= max
  }

  /** The rules the constructor enforces; the phone number's length is checked, its characters are not. */
  predicate ValidContact(id: Option<string>, firstName: Option<string>, lastName: Option<string>,
                         phone: Option<string>, address: Option<string>)
  {
    && Within(id, MaxIdLength)
    && Within(firstName, MaxNameLength)
    && Within(lastName, MaxNameLength)
    && phone.Some? && |phone.value| == PhoneLength
    && Within(address, MaxAddressLength)
  }

  /**
   * The message of the exception the constructor throws: the first rule
   * broken, in the order ID, first name, last name, phone, address; None
   * when every rule holds.
   */
  function ContactViolation(id: Option<string>, firstName: Option<string>, lastName: Option<string>,
                            phone: Option<string>, address: Option<string>): (r: Option<string>)
    ensures r == None <==> ValidContact(id, firstName, lastName, phone, address)
    ensures r == Some("Invalid ID") <==> !Within(id, MaxIdLength)
    ensures r == Some("Invalid first name") <==> Within(id, MaxIdLength) && !Within(firstName, MaxNameLength)
    ensures r == Some("Invalid last name") <==>
      Within(id, MaxIdLength) && Within(firstName, MaxNameLength) && !Within(lastName, MaxNameLength)
    ensures r == Some("Invalid phone number") <==>
      Within(id, MaxIdLength) && Within(firstName, MaxNameLength) && Within(lastName, MaxNameLength)
      && !(phone.Some? && |phone.value| == PhoneLength)
    ensures r == Some("Invalid address") <==>
      Within(id, MaxIdLength) && Within(firstName, MaxNameLength) && Within(lastName, MaxNameLength)
      && phone.Some? && |phone.value| == PhoneLength && !Within(address, MaxAddressLength)
  {
    if !Within(id, MaxIdLength) then Some("Invalid ID")
    else if !Within(firstName, MaxNameLength) then Some("Invalid first name")
    else if !Within(lastName, MaxNameLength) then Some("Invalid last name")
    else if phone.None? || |phone.value| != PhoneLength then Some("Invalid phone number")
    else if !Within(address, MaxAddressLength) then Some("Invalid address")
    else None
  }

  /** A snapshot of a contact's fields; setters may later make any but the ID null. */
  datatype ContactFields = ContactFields(
    id: string,
    firstName: Option<string>,
    lastName: Option<string>,
    phone: Option<string>,
    address: Option<string>)

  predicate ValidFields(f: ContactFields)
  {
    ValidContact(Some(f.id), f.firstName, f.lastName, f.phone, f.address)
  }

  class Contact {
    const id: string
    var firstName: Option<string>
    var lastName: Option<string>
    var phone: Option<string>
    var address: Option<string>

    function Fields(): ContactFields
      reads this
    {
      ContactFields(id, firstName, lastName, phone, address)
    }

    /** The constructor once its checks have passed: all five fields are stored as given. */
    constructor (id: Option<string>, firstName: Option<string>, lastName: Option<string>,
                 phone: Option<string>, address: Option<string>)
      requires ValidContact(id, firstName, lastName, phone, address)
      ensures Fields() == ContactFields(id.value, firstName, lastName, phone, address)
    {
      this.id := id.value;
      this.firstName := firstName;
      this.lastName := lastName;
      this.phone := phone;
      this.address := address;
    }

    /**
     * new Contact(...): throws IllegalArgumentException with the first
     * broken rule's message, or returns a new contact holding the fields.
     */
    static method New(id: Option<string>, firstName: Option<string>, lastName: Option<string>,
                      phone: Option<string>, address: Option<string>) returns (r: Result<Contact, Exception>)
      ensures r.Err? <==> ContactViolation(id, firstName, lastName, phone, address).Some?
      ensures r.Err? ==> r.error == IllegalArgumentException(ContactViolation(id, firstName, lastName, phone, address).value)
      ensures r.Ok? ==> fresh(r.value) && r.value.Fields() == ContactFields(id.value, firstName, lastName, phone, address)
    {
      if id.None? || |id.value| > MaxIdLength {
        return Err(IllegalArgumentException("Invalid ID"));
      }
      if firstName.None? || |firstName.value| > MaxNameLength {
        return Err(IllegalArgumentException("Invalid first name"));
      }
      if lastName.None? || |lastName.value| > MaxNameLength {
        return Err(IllegalArgumentException("Invalid last name"));
      }
      if phone.None? || |phone.value| != PhoneLength {
        return Err(IllegalArgumentException("Invalid phone number"));
      }
      if address.None? || |address.value| > MaxAddressLength {
        return Err(IllegalArgumentException("Invalid address"));
      }
      var c := new Contact(id, firstName, lastName, phone, address);
      r := Ok(c);
    }

    /** Replaces the first name, unchecked. */
    method SetFirstName(firstName: Option<string>)
      modifies this
      ensures Fields() == old(Fields()).(firstName := firstName)
    {
      this.firstName := firstName;
    }

    /** Replaces the last name, unchecked. */
    method SetLastName(lastName: Option<string>)
      modifies this
      ensures Fields() == old(Fields()).(lastName := lastName)
    {
      this.lastName := lastName;
    }

    /** Replaces the phone number, unchecked. */
    method SetPhone(phone: Option<string>)
      modifies this
      ensures Fields() == old(Fields()).(phone := phone)
    {
      this.phone := phone;
    }

    /** Replaces the address, unchecked. */
    method SetAddress(address: Option<string>)
      modifies this
      ensures Fields() == old(Fields()).(address := address)
    {
      this.address := address;
    }
  }
}
