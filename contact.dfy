/**
 * The `Contact` record (domain/Contact.kt): eleven text fields and the store-assigned `id`.
 * Kotlin's data-class equality is the structural equality of this datatype.
 */
module Domain {
  import opened Wrappers

  datatype Contact = Contact(
    customerID: string,
    companyName: string,
    contactName: string,
    contactTitle: string,
    address: string,
    city: string,
    email: string,
    postalCode: string,
    country: string,
    phone: string,
    fax: string,
    id: int)

  /**
   * The Kotlin constructor call that passes only the two required arguments: every other
   * text field takes its default "", and `id` its default 0, the "not yet stored" key.
   */
  function NewContact(contactName: string, email: string): (c: Contact)
    ensures c.contactName == contactName && c.email == email
    ensures c.customerID == "" && c.companyName == "" && c.contactTitle == "" && c.address == ""
    ensures c.city == "" && c.postalCode == "" && c.country == "" && c.phone == "" && c.fax == ""
    ensures c.id == 0
  {
    Contact("", "", contactName, "", "", "", email, "", "", "", "", 0)
  }

  /** `SortType`: which column orders the contact list. */
  datatype SortType = ByName | ByEmail

  /** The eleven text fields, in the order the importer's `when` lists their tags. */
  datatype FieldName =
    | CustomerID | CompanyName | ContactName | ContactTitle | Address | City
    | Country | PostalCode | Phone | Email | Fax

  const AllFields: seq<FieldName> :=
    [CustomerID, CompanyName, ContactName, ContactTitle, Address, City, Country, PostalCode, Phone, Email, Fax]

  /** The XML element name of a field. */
  function Tag(f: FieldName): string {
    match f
    case CustomerID => "CustomerID"
    case CompanyName => "CompanyName"
    case ContactName => "ContactName"
    case ContactTitle => "ContactTitle"
    case Address => "Address"
    case City => "City"
    case Country => "Country"
    case PostalCode => "PostalCode"
    case Phone => "Phone"
    case Email => "Email"
    case Fax => "Fax"
  }

  /** The field an element name stands for, if any: the branches of the importer's `when (currentTag)`. */
  function FieldNamed(tag: string): (r: Option<FieldName>)
    ensures r.Some? ==> Tag(r.value) == tag
    ensures forall f :: Tag(f) == tag ==> r == Some(f)
  {
    if tag == "CustomerID" then Some(CustomerID)
    else if tag == "CompanyName" then Some(CompanyName)
    else if tag == "ContactName" then Some(ContactName)
    else if tag == "ContactTitle" then Some(ContactTitle)
    else if tag == "Address" then Some(Address)
    else if tag == "City" then Some(City)
    else if tag == "Country" then Some(Country)
    else if tag == "PostalCode" then Some(PostalCode)
    else if tag == "Phone" then Some(Phone)
    else if tag == "Email" then Some(Email)
    else if tag == "Fax" then Some(Fax)
    else None
  }

  function FieldOf(c: Contact, f: FieldName): string {
    match f
    case CustomerID => c.customerID
    case CompanyName => c.companyName
    case ContactName => c.contactName
    case ContactTitle => c.contactTitle
    case Address => c.address
    case City => c.city
    case Country => c.country
    case PostalCode => c.postalCode
    case Phone => c.phone
    case Email => c.email
    case Fax => c.fax
  }

  /**
   * `currentContact?.<field> = text`, as a functional update of the immutable record:
   * exactly the named field changes.
   */
  function SetField(c: Contact, f: FieldName, text: string): (r: Contact)
    ensures FieldOf(r, f) == text
    ensures forall g :: g != f ==> FieldOf(r, g) == FieldOf(c, g)
    ensures r.id == c.id
  {
    match f
    case CustomerID => c.(customerID := text)
    case CompanyName => c.(companyName := text)
    case ContactName => c.(contactName := text)
    case ContactTitle => c.(contactTitle := text)
    case Address => c.(address := text)
    case City => c.(city := text)
    case Country => c.(country := text)
    case PostalCode => c.(postalCode := text)
    case Phone => c.(phone := text)
    case Email => c.(email := text)
    case Fax => c.(fax := text)
  }

  /** Two contacts that agree on the eleven fields and on `id` are the same contact. */
  lemma FieldsDetermine(a: Contact, b: Contact)
    requires forall f :: FieldOf(a, f) == FieldOf(b, f)
    requires a.id == b.id
    ensures a == b
  {
    assert FieldOf(a, CustomerID) == FieldOf(b, CustomerID);
    assert FieldOf(a, CompanyName) == FieldOf(b, CompanyName);
    assert FieldOf(a, ContactName) == FieldOf(b, ContactName);
    assert FieldOf(a, ContactTitle) == FieldOf(b, ContactTitle);
    assert FieldOf(a, Address) == FieldOf(b, Address);
    assert FieldOf(a, City) == FieldOf(b, City);
    assert FieldOf(a, Country) == FieldOf(b, Country);
    assert FieldOf(a, PostalCode) == FieldOf(b, PostalCode);
    assert FieldOf(a, Phone) == FieldOf(b, Phone);
    assert FieldOf(a, Email) == FieldOf(b, Email);
    assert FieldOf(a, Fax) == FieldOf(b, Fax);
  }

  /** Equality covers `id` too: the same text fields under another key make another contact. */
  lemma IdDistinguishes(c: Contact, k: int)
    requires k != c.id
    ensures c.(id := k) != c
  {
  }

  /** `a` is `b` with some elements left out, the rest in their order. */
  predicate IsSubsequence(a: seq<Contact>, b: seq<Contact>) {
    a == [] || (b != [] && ((a[0] == b[0] && IsSubsequence(a[1..], b[1..])) || IsSubsequence(a, b[1..])))
  }
}
