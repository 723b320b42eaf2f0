/**
 * `ContactViewModel` (presentation/ContactViewModel.kt): the draft form, its validation, the
 * duplicate-name check, edit as delete-then-insert, sorting and search.
 *
 * Every event, together with the coroutine it launches, is one atomic step. `Step` is that step
 * on a value holding the view model's two state flows and the store's table; the class
 * `ContactViewModel` runs it on the object and the store, and is proved to agree with `Step`.
 */
module ViewModel {
  import opened Wrappers
  import opened KotlinText
  import opened Domain
  import opened Dao

  /** The view state: the fields `ContactViewModel` reads and writes. */
  datatype ContactState = ContactState(
    contacts: seq<Contact>,
    customerID: string,
    companyName: string,
    contactName: string,
    contactTitle: string,
    contactAddress: string,
    contactCity: string,
    contactEmail: string,
    contactPostalCode: string,
    contactCountry: string,
    contactPhone: string,
    contactFax: string,
    isAddingContact: bool,
    sortType: SortType,
    isEditing: bool,
    editingContact: Option<Contact>,
    nameError: string,
    emailError: string,
    errorMessage: Option<string>,
    successMessage: Option<string>,
    searchQuery: string,
    filteredContacts: seq<Contact>,
    selectedContact: Option<Contact>)

  const InitialState := ContactState(
    [], "", "", "", "", "", "", "", "", "", "", "",
    false, ByName, false, None, "", "", None, None, "", [], None)

  datatype ContactEvent =
    | SaveContact(argument: Option<Contact>)
    | EditContact(contact: Contact)
    | ImportSuccess(count: int)
    | SetCustomerId(customerId: string)
    | SetCompanyName(companyName: string)
    | SetContactName(name: string)
    | SetContactTitle(title: string)
    | SetContactAddress(address: string)
    | SetContactCity(city: string)
    | SetContactEmail(email: string)
    | SetContactPostalCode(postalCode: string)
    | SetContactCountry(country: string)
    | SetContactPhone(phone: string)
    | SetContactFax(fax: string)
    | ShowDialog
    | HideDialog
    | ShowContactDetails(contact: Contact)
    | HideContactDetails
    | SortContacts(sortType: SortType)
    | DeleteContact(contact: Contact)
    | SearchContacts(query: string)

  /** `_state`, `_sortType` and the store's table. */
  datatype Model = Model(state: ContactState, sortType: SortType, table: Table)

  const NameRequired := "Name is required"
  const EmailRequired := "Email is required"
  const InvalidEmailFormat := "Invalid email format"
  const DuplicateName := "A contact with this name already exists"

  function ImportedMessage(count: int): string {
    "Successfully imported " + IntToString(count) + " contacts"
  }

  // ---------------------------------------------------------------------------
  // Search

  predicate Matches(c: Contact, query: string) {
    ContainsIgnoreCase(c.contactName, query) || ContainsIgnoreCase(c.email, query)
  }

  /** The contacts that match, in their original order, each as often as in the input. */
  function KeepMatching(contacts: seq<Contact>, query: string): (r: seq<Contact>)
    ensures IsSubsequence(r, contacts)
    ensures forall c :: multiset(r)[c] == if Matches(c, query) then multiset(contacts)[c] else 0
  {
    if contacts == [] then []
    else
      var tail := KeepMatching(contacts[1..], query);
      assert contacts == [contacts[0]] + contacts[1..];
      if Matches(contacts[0], query) then [contacts[0]] + tail else tail
  }

  /**
   * `filterContacts`: a blank query keeps the list as it is; otherwise the result keeps, in
   * order, exactly the contacts whose name or email contains the query, ignoring case.
   */
  function FilterContacts(contacts: seq<Contact>, query: string): (r: seq<Contact>)
    ensures IsBlank(query) ==> r == contacts
    ensures !IsBlank(query) ==> IsSubsequence(r, contacts)
    ensures !IsBlank(query) ==>
              forall c :: multiset(r)[c] == if Matches(c, query) then multiset(contacts)[c] else 0
  {
    if IsBlank(query) then contacts else KeepMatching(contacts, query)
  }

  lemma JohnDoeMatches()
    ensures Matches(NewContact("John Doe", ""), "doe")
  {
    assert RegionMatches("John Doe", 5, "doe");
    ContainsIgnoreCaseMeans("John Doe", "doe");
  }

  lemma JaneRoeDoesNotMatch()
    ensures !Matches(NewContact("Jane Roe", ""), "doe")
  {
    var name, q := "Jane Roe", "doe";
    forall k | 0 <= k < |name| ensures !CharEqualsIgnoreCase(name[k], q[0]) {
    }
    forall k ensures !RegionMatches(name, k, q) {
      if 0 <= k && k + |q| <= |name| {
        assert !CharEqualsIgnoreCase(name[k + 0], q[0]);
      }
    }
    ContainsIgnoreCaseMeans(name, q);
  }

  lemma DoeIsNotBlank()
    ensures !IsBlank("doe")
  {
    assert !IsWhitespace("doe"[0]);
  }

  /** Searching "doe" among "John Doe" and "Jane Roe" keeps only "John Doe": "Doe" matches whatever its case. */
  lemma SearchExample()
    ensures var john, jane := NewContact("John Doe", ""), NewContact("Jane Roe", "");
            FilterContacts([john, jane], "doe") == [john]
  {
    JohnDoeMatches();
    JaneRoeDoesNotMatch();
    DoeIsNotBlank();
    KeepFirstOfTwo(NewContact("John Doe", ""), NewContact("Jane Roe", ""), "doe");
  }

  /** Of two contacts where only the first matches, the search keeps the first. */
  lemma KeepFirstOfTwo(a: Contact, b: Contact, query: string)
    requires Matches(a, query) && !Matches(b, query)
    ensures KeepMatching([a, b], query) == [a]
  {
    assert [a, b][1..] == [b];
    assert KeepMatching([b], query) == [];
  }

  // ---------------------------------------------------------------------------
  // The state the screen sees

  /** `_contacts`: the store query that the sort type selects. */
  function SortedContacts(sort: SortType, t: Table): (r: seq<Contact>)
    ensures multiset(r) == multiset(t.rows)
    ensures forall i, j :: 0 <= i < j < |r| ==> LexLeq(Column(sort, r[i]), Column(sort, r[j]))
  {
    match sort
    case ByName => SortedByName(t)
    case ByEmail => SortedByEmail(t)
  }

  /** `state`: `_state` combined with the sort type, the selected query and the search over it. */
  function Published(m: Model): (p: ContactState)
    ensures p.sortType == m.sortType
    ensures multiset(p.contacts) == multiset(m.table.rows)
    ensures forall i, j :: 0 <= i < j < |p.contacts| ==> LexLeq(Column(m.sortType, p.contacts[i]), Column(m.sortType, p.contacts[j]))
    ensures IsBlank(m.state.searchQuery) ==> p.filteredContacts == p.contacts
    ensures !IsBlank(m.state.searchQuery) ==> IsSubsequence(p.filteredContacts, p.contacts)
    ensures !IsBlank(m.state.searchQuery) ==>
              forall c :: multiset(p.filteredContacts)[c] == if Matches(c, m.state.searchQuery) then multiset(m.table.rows)[c] else 0
    ensures p.(contacts := m.state.contacts, sortType := m.state.sortType, filteredContacts := m.state.filteredContacts) == m.state
  {
    var contacts := SortedContacts(m.sortType, m.table);
    m.state.(contacts := contacts, sortType := m.sortType,
             filteredContacts := FilterContacts(contacts, m.state.searchQuery))
  }

  // ---------------------------------------------------------------------------
  // The draft

  /** The contact the form describes, with the default id 0. */
  function DraftContact(s: ContactState): (c: Contact)
    ensures c.id == 0
    ensures LoadDraft(s, c) == s
  {
    Contact(s.customerID, s.companyName, s.contactName, s.contactTitle, s.contactAddress, s.contactCity,
            s.contactEmail, s.contactPostalCode, s.contactCountry, s.contactPhone, s.contactFax, 0)
  }

  /** The form filled from a contact's eleven fields. */
  function LoadDraft(s: ContactState, c: Contact): ContactState {
    s.(customerID := c.customerID, companyName := c.companyName, contactName := c.contactName,
       contactTitle := c.contactTitle, contactEmail := c.email, contactPhone := c.phone,
       contactAddress := c.address, contactCity := c.city, contactCountry := c.country,
       contactPostalCode := c.postalCode, contactFax := c.fax)
  }

  /** Loading a contact into the form and reading the form back gives the contact under the default id. */
  lemma DraftOfLoaded(s: ContactState, c: Contact)
    ensures DraftContact(LoadDraft(s, c)) == c.(id := 0)
  {
  }

  function ClearDraft(s: ContactState): ContactState {
    LoadDraft(s, NewContact("", ""))
  }

  /** The draft field an event sets, and the value. */
  function SetterField(e: ContactEvent): Option<(FieldName, string)> {
    match e
    case SetCustomerId(v) => Some((CustomerID, v))
    case SetCompanyName(v) => Some((CompanyName, v))
    case SetContactName(v) => Some((ContactName, v))
    case SetContactTitle(v) => Some((ContactTitle, v))
    case SetContactAddress(v) => Some((Address, v))
    case SetContactCity(v) => Some((City, v))
    case SetContactEmail(v) => Some((Email, v))
    case SetContactPostalCode(v) => Some((PostalCode, v))
    case SetContactCountry(v) => Some((Country, v))
    case SetContactPhone(v) => Some((Phone, v))
    case SetContactFax(v) => Some((Fax, v))
    case _ => None
  }

  function NameErrorFor(name: string): string {
    if IsBlank(name) then NameRequired else ""
  }

  function EmailErrorFor(email: string, isValidEmail: string -> bool): string {
    if IsBlank(email) then EmailRequired
    else if !isValidEmail(email) then InvalidEmailFormat
    else ""
  }

  /** What `validateContact` accepts: a name, and an email that is present and well formed. */
  predicate DraftIsValid(s: ContactState, isValidEmail: string -> bool) {
    !IsBlank(s.contactName) && !IsBlank(s.contactEmail) && isValidEmail(s.contactEmail)
  }

  /** `isDuplicateContact`: some stored contact already has this exact name. */
  predicate NameTaken(t: Table, name: string)
    requires Wellformed(t)
  {
    WithName(t.rows, name) != []
  }

  /** The name lookup finds something exactly when a stored contact has that name. */
  lemma NameTakenMeans(t: Table, name: string)
    requires Wellformed(t)
    ensures NameTaken(t, name) <==> exists x :: x in t.rows && x.contactName == name
  {
    if NameTaken(t, name) {
      assert WithName(t.rows, name)[0] in WithName(t.rows, name);
    }
  }

  // ---------------------------------------------------------------------------
  // The reducer

  /** `onEvent`, with the coroutine each event launches run to completion. */
  function Step(m: Model, e: ContactEvent, isValidEmail: string -> bool): (r: Model)
    requires Wellformed(m.table)
    ensures Wellformed(r.table)
  {
    var s := m.state;
    match e
    case SearchContacts(q) =>
      m.(state := s.(searchQuery := q, filteredContacts := FilterContacts(SortedContacts(m.sortType, m.table), q)))
    case EditContact(c) =>
      m.(state := LoadDraft(s, c).(isAddingContact := true, isEditing := true, editingContact := Some(c)))
    case DeleteContact(c) =>
      m.(table := Delete(m.table, c))
    case HideDialog =>
      m.(state := ClearDraft(s).(isAddingContact := false, isEditing := false, editingContact := None))
    case SaveContact(Some(c)) =>
      if NameTaken(m.table, c.contactName) then m else m.(table := Upsert(m.table, c))
    case SaveContact(None) =>
      var contact := DraftContact(s);
      var checked := s.(nameError := NameErrorFor(s.contactName),
                        emailError := EmailErrorFor(s.contactEmail, isValidEmail));
      if !DraftIsValid(s, isValidEmail) then
        m.(state := checked)
      else if NameTaken(m.table, contact.contactName) then
        m.(state := checked.(errorMessage := Some(DuplicateName)))
      else
        var afterDelete := if checked.isEditing && checked.editingContact.Some?
                           then Delete(m.table, checked.editingContact.value) else m.table;
        Model(ClearDraft(checked).(isAddingContact := false), m.sortType, Upsert(afterDelete, contact))
    case ImportSuccess(n) =>
      m.(state := s.(successMessage := Some(ImportedMessage(n))))
    case SetContactEmail(v) =>
      m.(state := s.(contactEmail := v,
                     emailError := if !IsBlank(v) && isValidEmail(v) then "" else s.emailError))
    case SetContactName(v) =>
      m.(state := s.(contactName := v, nameError := if IsBlank(v) then "" else s.nameError))
    case SetContactPhone(v) => m.(state := s.(contactPhone := v))
    case SetCompanyName(v) => m.(state := s.(companyName := v))
    case SetContactAddress(v) => m.(state := s.(contactAddress := v))
    case SetContactCity(v) => m.(state := s.(contactCity := v))
    case SetContactCountry(v) => m.(state := s.(contactCountry := v))
    case SetContactFax(v) => m.(state := s.(contactFax := v))
    case SetContactPostalCode(v) => m.(state := s.(contactPostalCode := v))
    case SetContactTitle(v) => m.(state := s.(contactTitle := v))
    case SetCustomerId(v) => m.(state := s.(customerID := v))
    case ShowDialog => m.(state := s.(isAddingContact := true))
    case SortContacts(sort) => m.(sortType := sort)
    case ShowContactDetails(c) => m.(state := s.(selectedContact := Some(c)))
    case HideContactDetails => m.(state := s.(selectedContact := None))
  }

  // ---------------------------------------------------------------------------
  // Properties of the reducer

  /** Editing opens the dialog in edit mode on that contact, with its eleven fields in the form. */
  lemma EditContactLoadsDraft(m: Model, c: Contact, isValidEmail: string -> bool)
    requires Wellformed(m.table)
    ensures var r := Step(m, EditContact(c), isValidEmail);
            && r.state.isAddingContact && r.state.isEditing && r.state.editingContact == Some(c)
            && DraftContact(r.state) == c.(id := 0)
            && r.table == m.table
  {
  }

  /** Hiding the dialog closes it, leaves edit mode and empties the form, but keeps the field errors. */
  lemma HideDialogClearsDraft(m: Model, isValidEmail: string -> bool)
    requires Wellformed(m.table)
    ensures var r := Step(m, HideDialog, isValidEmail);
            && !r.state.isAddingContact && !r.state.isEditing && r.state.editingContact.None?
            && DraftContact(r.state) == NewContact("", "")
            && r.state.nameError == m.state.nameError && r.state.emailError == m.state.emailError
            && r.table == m.table
  {
  }

  /**
   * Saving an invalid draft sets both field errors (to "" where the field is fine), leaves the
   * dialog as it was and does not touch the store.
   */
  lemma InvalidDraftNotSaved(m: Model, isValidEmail: string -> bool)
    requires Wellformed(m.table) && !DraftIsValid(m.state, isValidEmail)
    ensures var r := Step(m, SaveContact(None), isValidEmail);
            && r.table == m.table
            && r.state.isAddingContact == m.state.isAddingContact
            && r.state.nameError == (if IsBlank(m.state.contactName) then NameRequired else "")
            && r.state.emailError == (if IsBlank(m.state.contactEmail) then EmailRequired
                                      else if !isValidEmail(m.state.contactEmail) then InvalidEmailFormat
                                      else "")
            && (r.state.nameError != "" || r.state.emailError != "")
  {
  }

  /**
   * Saving a valid draft whose name a stored contact already has reports the duplicate and
   * neither deletes nor inserts, in edit mode as well.
   */
  lemma DuplicateDraftNotSaved(m: Model, other: Contact, isValidEmail: string -> bool)
    requires Wellformed(m.table) && DraftIsValid(m.state, isValidEmail)
    requires other in m.table.rows && other.contactName == m.state.contactName
    ensures var r := Step(m, SaveContact(None), isValidEmail);
            && r.table == m.table
            && r.state.errorMessage == Some(DuplicateName)
            && r.state.isAddingContact == m.state.isAddingContact
  {
    NameTakenMeans(m.table, m.state.contactName);
  }

  /** So an edit that keeps the contact's name is refused: the record being edited is the duplicate. */
  lemma EditKeepingNameRefused(m: Model, a: Contact, isValidEmail: string -> bool)
    requires Wellformed(m.table) && DraftIsValid(m.state, isValidEmail)
    requires m.state.isEditing && m.state.editingContact == Some(a) && a in m.table.rows
    requires m.state.contactName == a.contactName
    ensures Step(m, SaveContact(None), isValidEmail).table == m.table
    ensures Step(m, SaveContact(None), isValidEmail).state.errorMessage == Some(DuplicateName)
  {
    DuplicateDraftNotSaved(m, a, isValidEmail);
  }

  /**
   * A valid draft with a new name is inserted under a fresh id after the edited contact, if any,
   * is deleted. The dialog closes and the form empties, but edit mode and `editingContact` stay.
   */
  lemma SaveNewName(m: Model, isValidEmail: string -> bool)
    requires Wellformed(m.table) && DraftIsValid(m.state, isValidEmail)
    requires forall x :: x in m.table.rows ==> x.contactName != m.state.contactName
    ensures var r := Step(m, SaveContact(None), isValidEmail);
            var stored := DraftContact(m.state).(id := m.table.lastId + 1);
            var editing := m.state.isEditing && m.state.editingContact.Some?;
            && (forall x :: x in r.table.rows <==>
                  x == stored || (x in m.table.rows && !(editing && x.id == m.state.editingContact.value.id)))
            && !HasId(m.table.rows, stored.id)
            && !r.state.isAddingContact
            && DraftContact(r.state) == NewContact("", "")
            && r.state.isEditing == m.state.isEditing && r.state.editingContact == m.state.editingContact
            && r.state.nameError == "" && r.state.emailError == ""
  {
    NameTakenMeans(m.table, m.state.contactName);
  }

  /** Editing A into a new name leaves exactly as many records: A is gone and the draft is stored under a new id. */
  lemma EditReplacesRecord(m: Model, a: Contact, isValidEmail: string -> bool)
    requires Wellformed(m.table) && DraftIsValid(m.state, isValidEmail)
    requires m.state.isEditing && m.state.editingContact == Some(a) && a in m.table.rows
    requires forall x :: x in m.table.rows ==> x.contactName != m.state.contactName
    ensures var r := Step(m, SaveContact(None), isValidEmail);
            && |r.table.rows| == |m.table.rows|
            && a !in r.table.rows
            && DraftContact(m.state).(id := m.table.lastId + 1) in r.table.rows
  {
    SaveNewName(m, isValidEmail);
    var t1 := Delete(m.table, a);
    var i :| 0 <= i < |m.table.rows| && m.table.rows[i] == a;
    assert HasId(m.table.rows, a.id);
    assert |Remove(m.table.rows, a.id)| == |m.table.rows| - 1;
  }

  /** A contact passed with the event is inserted exactly when no stored contact has its name; nothing is validated. */
  lemma SaveArgument(m: Model, c: Contact, isValidEmail: string -> bool)
    requires Wellformed(m.table)
    ensures var r := Step(m, SaveContact(Some(c)), isValidEmail);
            && r.state == m.state
            && ((forall x :: x in m.table.rows ==> x.contactName != c.contactName) ==>
                  c.(id := AssignedId(m.table, c)) in r.table.rows)
            && ((exists x :: x in m.table.rows && x.contactName == c.contactName) ==> r.table == m.table)
  {
    NameTakenMeans(m.table, c.contactName);
  }

  /**
   * Each setter changes only its own draft field; the name setter clears the name error only for
   * a blank name, the email setter clears the email error only for a present, well-formed email.
   */
  lemma SetterChangesOnlyItsField(m: Model, e: ContactEvent, isValidEmail: string -> bool)
    requires Wellformed(m.table) && SetterField(e).Some?
    ensures var r := Step(m, e, isValidEmail);
            var (f, v) := SetterField(e).value;
            && DraftContact(r.state) == SetField(DraftContact(m.state), f, v)
            && ClearDraft(r.state).(nameError := "", emailError := "")
               == ClearDraft(m.state).(nameError := "", emailError := "")
            && r.state.nameError == (if e.SetContactName? && IsBlank(v) then "" else m.state.nameError)
            && r.state.emailError == (if e.SetContactEmail? && !IsBlank(v) && isValidEmail(v) then ""
                                      else m.state.emailError)
            && r.table == m.table && r.sortType == m.sortType
  {
  }

  /** The sort event picks the query that feeds the list: the whole table, ordered by that column. */
  lemma SortSelectsQuery(m: Model, e: ContactEvent, isValidEmail: string -> bool)
    requires Wellformed(m.table) && e.SortContacts?
    ensures var p := Published(Step(m, e, isValidEmail));
            && p.sortType == e.sortType
            && multiset(p.contacts) == multiset(m.table.rows)
            && forall i, j :: 0 <= i < j < |p.contacts| ==> LexLeq(Column(e.sortType, p.contacts[i]), Column(e.sortType, p.contacts[j]))
  {
  }

  /** No two stored contacts share a name. */
  predicate UniqueNames(rows: seq<Contact>) {
    forall x, y :: x in rows && y in rows && x.contactName == y.contactName ==> x == y
  }

  /** Every event of this view model keeps stored names unique: nothing is inserted under a taken name. */
  lemma StepKeepsNamesUnique(m: Model, e: ContactEvent, isValidEmail: string -> bool)
    requires Wellformed(m.table) && UniqueNames(m.table.rows)
    ensures UniqueNames(Step(m, e, isValidEmail).table.rows)
  {
    var s := m.state;
    if e.SaveContact? && e.argument.Some? {
      var c := e.argument.value;
      if !NameTaken(m.table, c.contactName) {
        FreshNameInsert(m.table, m.table, c);
      }
    } else if e.SaveContact? {
      if DraftIsValid(s, isValidEmail) && !NameTaken(m.table, s.contactName) {
        var t1 := if s.isEditing && s.editingContact.Some? then Delete(m.table, s.editingContact.value) else m.table;
        FreshNameInsert(m.table, t1, DraftContact(s));
      }
    } else if !e.DeleteContact? {
      OnlySavesAndDeletesWrite(m, e, isValidEmail);
    }
  }

  /** Only saving and deleting write to the store; every other event leaves the table as it was. */
  lemma OnlySavesAndDeletesWrite(m: Model, e: ContactEvent, isValidEmail: string -> bool)
    requires Wellformed(m.table) && !e.SaveContact? && !e.DeleteContact?
    ensures Step(m, e, isValidEmail).table == m.table
  {
  }

  /**
   * Inserting a contact whose name no stored contact has, into the table or what is left of it
   * after a delete, keeps names unique.
   */
  lemma FreshNameInsert(t: Table, t1: Table, c: Contact)
    requires Wellformed(t) && Wellformed(t1) && UniqueNames(t.rows)
    requires forall x :: x in t1.rows ==> x in t.rows
    requires !NameTaken(t, c.contactName)
    ensures UniqueNames(Upsert(t1, c).rows)
  {
  }

  // ---------------------------------------------------------------------------
  // The import dialog's use of the reducer

  /** Each parsed contact sent as `SaveContact(contact)`, then `ImportSuccess(count)`. */
  function ImportContacts(m: Model, cs: seq<Contact>, count: int, isValidEmail: string -> bool): (r: Model)
    requires Wellformed(m.table)
    ensures Wellformed(r.table)
    decreases |cs|
  {
    if cs == [] then Step(m, ImportSuccess(count), isValidEmail)
    else ImportContacts(Step(m, SaveContact(Some(cs[0])), isValidEmail), cs[1..], count, isValidEmail)
  }

  function NamesOf(rows: seq<Contact>): set<string> {
    set x | x in rows :: x.contactName
  }

  lemma NamesOfCons(cs: seq<Contact>)
    requires cs != []
    ensures NamesOf(cs) == {cs[0].contactName} + NamesOf(cs[1..])
  {
    assert cs == [cs[0]] + cs[1..];
  }

  /** Saving a new contact passed with the event adds its name to the stored names, whether or not it was there. */
  lemma SaveArgumentAddsName(m: Model, c: Contact, isValidEmail: string -> bool)
    requires Wellformed(m.table) && c.id == 0
    ensures NamesOf(Step(m, SaveContact(Some(c)), isValidEmail).table.rows) == NamesOf(m.table.rows) + {c.contactName}
  {
    var m1 := Step(m, SaveContact(Some(c)), isValidEmail);
    NameTakenMeans(m.table, c.contactName);
    if !NameTaken(m.table, c.contactName) {
      var stored := c.(id := AssignedId(m.table, c));
      assert stored in m1.table.rows;
      forall x | x in m.table.rows ensures x in m1.table.rows {
        assert x.id <= m.table.lastId;
      }
    }
  }

  /**
   * After an import the stored names are the old ones plus the imported ones: a record whose name
   * is already stored is skipped. The banner still reports the parsed count.
   */
  lemma {:induction false} ImportStoresNames(m: Model, cs: seq<Contact>, count: int, isValidEmail: string -> bool)
    requires Wellformed(m.table)
    requires forall c :: c in cs ==> c.id == 0
    ensures var r := ImportContacts(m, cs, count, isValidEmail);
            && NamesOf(r.table.rows) == NamesOf(m.table.rows) + NamesOf(cs)
            && r.state.successMessage == Some(ImportedMessage(count))
    decreases |cs|
  {
    if cs != [] {
      var c := cs[0];
      var m1 := Step(m, SaveContact(Some(c)), isValidEmail);
      assert ImportContacts(m, cs, count, isValidEmail) == ImportContacts(m1, cs[1..], count, isValidEmail);
      SaveArgumentAddsName(m, c, isValidEmail);
      ImportStoresNames(m1, cs[1..], count, isValidEmail);
      NamesOfCons(cs);
    }
  }

  // ---------------------------------------------------------------------------
  // The object

  class ContactViewModel {
    const dao: ContactDao
    /** `Patterns.EMAIL_ADDRESS.matcher(email).matches()`, a platform regular expression. */
    const isValidEmail: string -> bool
    var state: ContactState
    var sortType: SortType

    ghost predicate Valid()
      reads this, dao
    {
      dao.Valid()
    }

    function Snapshot(): Model
      reads this, dao
    {
      Model(state, sortType, dao.table)
    }

    constructor(dao: ContactDao, isValidEmail: string -> bool)
      requires dao.Valid()
      ensures this.dao == dao && this.isValidEmail == isValidEmail
      ensures Valid() && state == InitialState && sortType == ByName
    {
      this.dao := dao;
      this.isValidEmail := isValidEmail;
      state := InitialState;
      sortType := ByName;
    }

    /** The combined `state` flow that the screen collects. */
    function PublishedState(): ContactState
      reads this, dao
    {
      Published(Snapshot())
    }

    /** `validateContact`: sets both field errors from the form and says whether it may be saved. */
    method ValidateContact() returns (isValid: bool)
      modifies this
      ensures state == old(state).(nameError := NameErrorFor(old(state).contactName),
                                   emailError := EmailErrorFor(old(state).contactEmail, isValidEmail))
      ensures sortType == old(sortType)
      ensures isValid == DraftIsValid(old(state), isValidEmail)
    {
      isValid := true;
      var currentState := state;
      var nameError: string;
      if IsBlank(currentState.contactName) {
        isValid := false;
        nameError := NameRequired;
      } else {
        nameError := "";
      }
      var emailError: string;
      if IsBlank(currentState.contactEmail) {
        isValid := false;
        emailError := EmailRequired;
      } else if !isValidEmail(currentState.contactEmail) {
        isValid := false;
        emailError := InvalidEmailFormat;
      } else {
        emailError := "";
      }
      state := state.(nameError := nameError, emailError := emailError);
    }

    /** `isDuplicateContact`: whether the store holds a contact with exactly this name. */
    method IsDuplicateContact(contactName: string) returns (duplicate: bool)
      requires dao.Valid()
      ensures duplicate <==> exists x :: x in dao.table.rows && x.contactName == contactName
    {
      var existing := dao.GetContactsByName(contactName);
      duplicate := existing != [];
      if duplicate {
        assert existing[0] in existing;
      }
    }

    // The branches of `onEvent` below take the whole event, not its payload, so that each one's
    // contract is `Step` on that very event; a payload parameter would make the contract rebuild the event.

    /** The coroutine `onEvent` launches for a contact passed with `SaveContact`: insert it unless its name is taken. */
    method SaveGiven(e: ContactEvent)
      requires Valid() && e.SaveContact? && e.argument.Some?
      modifies dao
      ensures Valid()
      ensures Snapshot() == Step(old(Snapshot()), e, isValidEmail)
    {
      var c := e.argument.value;
      var duplicate := IsDuplicateContact(c.contactName);
      NameTakenMeans(dao.table, c.contactName);
      if !duplicate {
        dao.InsertContact(c);
      }
    }

    /**
     * `SaveContact` without a contact: validate the form, then, in the launched coroutine, refuse
     * a taken name, delete the contact being edited, insert the draft and empty the form.
     */
    method SaveDraft(e: ContactEvent)
      requires Valid() && e.SaveContact? && e.argument.None?
      modifies this, dao
      ensures Valid()
      ensures Snapshot() == Step(old(Snapshot()), e, isValidEmail)
    {
      var contact := DraftContact(state);
      var ok := ValidateContact();
      if !ok {
        return;
      }
      var duplicate := IsDuplicateContact(contact.contactName);
      NameTakenMeans(dao.table, contact.contactName);
      if duplicate {
        state := state.(errorMessage := Some(DuplicateName));
        return;
      }
      if state.isEditing {
        match state.editingContact {
          case Some(oldContact) => dao.DeleteContact(oldContact);
          case None =>
        }
      }
      dao.InsertContact(contact);
      state := ClearDraft(state).(isAddingContact := false);
    }

    /** The `SearchContacts` branch of `onEvent`: record the query and filter the current list with it. */
    method Search(e: ContactEvent)
      requires Valid() && e.SearchContacts?
      modifies this
      ensures Valid()
      ensures Snapshot() == Step(old(Snapshot()), e, isValidEmail)
    {
      state := state.(searchQuery := e.query, filteredContacts := FilterContacts(SortedContacts(sortType, dao.table), e.query));
    }

    /** The eleven form-field branches of `onEvent`; the name and email setters also clear their error when the new value passes. */
    method SetDraftField(e: ContactEvent)
      requires Valid() && SetterField(e).Some?
      modifies this
      ensures Valid()
      ensures Snapshot() == Step(old(Snapshot()), e, isValidEmail)
    {
      if e.SetContactEmail? {
        var v := e.email;
        state := state.(contactEmail := v,
                        emailError := if !IsBlank(v) && isValidEmail(v) then "" else state.emailError);
      } else if e.SetContactName? {
        var v := e.name;
        state := state.(contactName := v, nameError := if IsBlank(v) then "" else state.nameError);
      } else if e.SetContactPhone? { state := state.(contactPhone := e.phone);
      } else if e.SetCompanyName? { state := state.(companyName := e.companyName);
      } else if e.SetContactAddress? { state := state.(contactAddress := e.address);
      } else if e.SetContactCity? { state := state.(contactCity := e.city);
      } else if e.SetContactCountry? { state := state.(contactCountry := e.country);
      } else if e.SetContactFax? { state := state.(contactFax := e.fax);
      } else if e.SetContactPostalCode? { state := state.(contactPostalCode := e.postalCode);
      } else if e.SetContactTitle? { state := state.(contactTitle := e.title);
      } else { state := state.(customerID := e.customerId);
      }
    }

    /** The branches of `onEvent` that open, fill, close or annotate the dialog and touch nothing else. */
    method UpdateDialog(e: ContactEvent)
      requires Valid()
      requires e.EditContact? || e.HideDialog? || e.ImportSuccess? || e.ShowDialog? || e.ShowContactDetails? || e.HideContactDetails?
      modifies this
      ensures Valid()
      ensures Snapshot() == Step(old(Snapshot()), e, isValidEmail)
    {
      if e.EditContact? {
        state := LoadDraft(state, e.contact).(isAddingContact := true, isEditing := true, editingContact := Some(e.contact));
      } else if e.HideDialog? {
        state := ClearDraft(state).(isAddingContact := false, isEditing := false, editingContact := None);
      } else if e.ImportSuccess? {
        state := state.(successMessage := Some(ImportedMessage(e.count)));
      } else if e.ShowDialog? {
        state := state.(isAddingContact := true);
      } else if e.ShowContactDetails? {
        state := state.(selectedContact := Some(e.contact));
      } else {
        state := state.(selectedContact := None);
      }
    }

    /** `onEvent`. */
    method OnEvent(e: ContactEvent)
      requires Valid()
      modifies this, dao
      ensures Valid()
      ensures Snapshot() == Step(old(Snapshot()), e, isValidEmail)
    {
      match e {
        case SearchContacts(_) =>
          Search(e);
        case SaveContact(Some(_)) =>
          SaveGiven(e);
        case SaveContact(None) =>
          SaveDraft(e);
        case DeleteContact(c) =>
          dao.DeleteContact(c);
        case SortContacts(sort) =>
          sortType := sort;
        case SetContactEmail(_) | SetContactName(_) | SetContactPhone(_) | SetCompanyName(_)
           | SetContactAddress(_) | SetContactCity(_) | SetContactCountry(_) | SetContactFax(_)
           | SetContactPostalCode(_) | SetContactTitle(_) | SetCustomerId(_) =>
          SetDraftField(e);
        case EditContact(_) | HideDialog | ImportSuccess(_) | ShowDialog | ShowContactDetails(_) | HideContactDetails =>
          UpdateDialog(e);
      }
    }
  }
}
