# Address book core in Dafny

A model of the contact-management core of an Android address book written in Kotlin, with proofs
about it. The model has these parts:

- **`Contact`**: eleven text fields and a store-assigned `id`.
- **Bulk XML importer** (`XmlParser`).
  - `parseXml` is a single-pass state machine over pull-parser events.
  - `parseContactsXml` sorts its outcome into `ImportResult`.
- **Room contact table** behind `ContactDao`: upsert, delete by key, two ordered queries and an exact-name lookup.
- **`ContactViewModel`**, the main reducer.
  - It handles the draft form, validation messages, the duplicate-name check, edit as delete-then-insert, sort and search.
  - It is also the reducer the import dialog feeds parsed contacts into.
- **Two list-backed view models for the web front-end.**
  - `ContactsViewModel` edits a plain list by position.
  - `WebViewModel` addresses the store by position in its name-sorted mirror.

## How it is modelled

- **Modules.** Each Kotlin file becomes one module:
  - `Domain` (`contact.dfy`);
  - `XmlParser` (`xml_parser.dfy`);
  - `Dao` (`contact_dao.dfy`);
  - `ViewModel` (`contact_view_model.dfy`);
  - `ContactsList` (`contacts_view_model.dfy`);
  - `WebView` (`web_view_model.dfy`).

  `KotlinText` (`kotlin_text.dfy`) holds the parts of Kotlin's and SQLite's string handling that the code relies on: `isBlank`, `trim`, `contains(ignoreCase = true)`, the BINARY collation and `Int.toString`. `Wrappers` holds `Option`.
- **The pull parser.** Its output is a sequence of `XmlEvent`s: start tag, text, end tag, and `Malformed(message)` for a failure that `XmlPullParser.next()` reports by throwing.
  - `ParseXml` keeps the source's `while` loop and its four local variables.
  - It is proved equal to `ParseXmlSpec`, a fold of one loop step over the events.
  - The properties are proved about that fold.
- **The contact table.** The table is a value: its rows in rowid order, plus SQLite's AUTOINCREMENT counter.
  - `@Upsert` of a contact with id 0 stores it under a key no row ever had.
  - An explicit id replaces the row with that key, or inserts it.
  - `@Delete` removes by key.
  - The class `ContactDao` holds the table; its two write methods are proved to perform `Upsert` and `Delete`.
- **`ContactViewModel.onEvent`.** Each event, together with the coroutine it launches, is one atomic step.
  - `ViewModel.Step` is that step on a value holding `_state`, `_sortType` and the table.
  - The class `ContactViewModel` performs the same step on its fields and on the store, and `OnEvent` is proved to agree with `Step`.
  - `android.util.Patterns.EMAIL_ADDRESS` is a constructor parameter `isValidEmail: string -> bool`.
- **What the code actually uses.** `ContactState.kt` and `ContactEvent.kt` lag behind the view model. The state here has the fields the view model reads and writes: `isEditing`, `editingContact`, `nameError`, `emailError`, `errorMessage`, `successMessage`, `searchQuery`, `filteredContacts` and `selectedContact`. The events include `SearchContacts`.
- **Field assignment.** The importer assigns the `val` fields of `Contact`. This is modelled as a functional update of the record.

Three behaviours of the code worth knowing:

- **Which records the importer accepts.** The importer checks only that name and email are not blank (`XmlParser.IsValid`); the shape of the email is not checked, and `XmlParser.SuccessShape` proves only that much.
- **Editing a contact.** Editing A into A' does not always leave exactly one record.
  - That holds when the new name is not already stored (`ViewModel.EditReplacesRecord`).
  - An edit that keeps A's name is refused as a duplicate of A itself (`ViewModel.EditKeepingNameRefused`).
  - A successful edit closes the dialog but leaves `isEditing` and `editingContact` set (`ViewModel.SaveNewName`).

## Model

| member | source | states |
|---|---|---|
| Domain.NewContact | app/src/main/java/com/example/addressbook/domain/Contact.kt:7-21 | a contact built from its two required fields has every other field "" and the id 0, the not-yet-stored key |
| Domain.FieldsDetermine | app/src/main/java/com/example/addressbook/domain/Contact.kt:6-21 | data-class equality: contacts agreeing on the eleven fields and the id are equal |
| Domain.IdDistinguishes | app/src/main/java/com/example/addressbook/domain/Contact.kt:19-20 | two contacts that differ only in id are different |
| Domain.FieldNamed | app/src/main/java/com/example/addressbook/util/XmlParser.kt:53-65 | an element name selects a field exactly when it is that field's tag, and each tag selects its own field |
| Domain.SetField | app/src/main/java/com/example/addressbook/util/XmlParser.kt:54-64 | assigning a field changes that field only and keeps the id |
| KotlinText.Trim | app/src/main/java/com/example/addressbook/util/XmlParser.kt:50 | the trimmed text is a slice of the input with only whitespace cut from either end; it is empty exactly for blank input, and otherwise starts and ends with a non-whitespace character |
| KotlinText.TrimFixed | app/src/main/java/com/example/addressbook/util/XmlParser.kt:50 | text with no whitespace at either end is its own trim |
| KotlinText.IndexOfIgnoreCase | app/src/main/java/com/example/addressbook/presentation/ContactViewModel.kt:53-55 | the first position where the query occurs ignoring case, or -1 exactly when it occurs nowhere |
| KotlinText.ContainsIgnoreCaseMeans | app/src/main/java/com/example/addressbook/presentation/ContactViewModel.kt:53-55 | `contains(ignoreCase = true)` holds exactly when the query occurs at some position ignoring case |
| KotlinText.LexLeqReflexive | app/src/main/java/com/example/addressbook/data/ContactDao.kt:19-23 | the text order of ORDER BY is reflexive |
| KotlinText.LexLeqTotal | app/src/main/java/com/example/addressbook/data/ContactDao.kt:19-23 | any two texts are ordered one way or the other |
| KotlinText.LexLeqAntisymmetric | app/src/main/java/com/example/addressbook/data/ContactDao.kt:19-23 | texts ordered both ways are equal |
| KotlinText.LexLeqTransitive | app/src/main/java/com/example/addressbook/data/ContactDao.kt:19-23 | the text order is transitive |
| KotlinText.NatToString | app/src/main/java/com/example/addressbook/presentation/ContactViewModel.kt:182 | the count in the banner is written as decimal digits with no leading zero |
| KotlinText.NatToStringRoundTrip | app/src/main/java/com/example/addressbook/presentation/ContactViewModel.kt:182 | reading the banner's digits back gives the count |
| XmlParser.ParseXml | app/src/main/java/com/example/addressbook/util/XmlParser.kt:11-103 | the event loop returns exactly the outcome of the fold of one loop step over the events, with the blank-input, missing-root and no-record exceptions |
| XmlParser.ParseContactsXml | app/src/main/java/com/example/addressbook/util/XmlParser.kt:105-119 | the result is the parser's outcome sorted into the four `ImportResult` cases |
| XmlParser.ContactTagOpensDraft | app/src/main/java/com/example/addressbook/util/XmlParser.kt:32-46 | a `<Contact>` start tag opens a draft with all eleven fields "" and id 0, leaving accepted records alone |
| XmlParser.TextSetsField | app/src/main/java/com/example/addressbook/util/XmlParser.kt:49-66 | non-blank text in an open draft under a field's element sets that field to the trimmed text, overwriting it, and no other field |
| XmlParser.TextIgnored | app/src/main/java/com/example/addressbook/util/XmlParser.kt:49-66 | blank text, text with no open draft and text under an unknown element change nothing |
| XmlParser.FailedStays | app/src/main/java/com/example/addressbook/util/XmlParser.kt:90 | once `next()` has thrown, no later event is read |
| XmlParser.FeedAppend | app/src/main/java/com/example/addressbook/util/XmlParser.kt:26-91 | running the loop over two stretches of events is running it over the first, then the second |
| XmlParser.RootFlag | app/src/main/java/com/example/addressbook/util/XmlParser.kt:31 | without a parser failure, `hasValidStructure` ends true exactly when it started true or an `AddressBook` start tag occurred |
| XmlParser.AppendOnly | app/src/main/java/com/example/addressbook/util/XmlParser.kt:77-78 | accepted records are only appended, and each one passes `isValid` and keeps id 0 |
| XmlParser.AtMostOnePerRecord | app/src/main/java/com/example/addressbook/util/XmlParser.kt:71-86 | the loop accepts at most one record per `</Contact>` end tag |
| XmlParser.BlankIsEmptyFile | app/src/main/java/com/example/addressbook/util/XmlParser.kt:12-14 | blank content is `EmptyFile`, whatever the events |
| XmlParser.NoRootIsInvalidFormat | app/src/main/java/com/example/addressbook/util/XmlParser.kt:94-96 | without an `AddressBook` start tag the result is `InvalidFormat`, even when records were accepted |
| XmlParser.NoRecordIsEmptyFile | app/src/main/java/com/example/addressbook/util/XmlParser.kt:98-100 | with the root tag but no `</Contact>` the result is `EmptyFile` |
| XmlParser.SuccessShape | app/src/main/java/com/example/addressbook/util/XmlParser.kt:105-108 | on `Success` the count is the list length and at least 1, and every record has a non-blank name and email and id 0 |
| XmlParser.DocumentOrder | app/src/main/java/com/example/addressbook/util/XmlParser.kt:78 | the records accepted from a prefix of the document are a prefix of all the records accepted |
| XmlParser.ParserFailureIsError | app/src/main/java/com/example/addressbook/util/XmlParser.kt:116-117 | the first parser failure gives `Error` with its message, or "Unknown error occurred" when it has none |
| XmlParser.IsValid | app/src/main/java/com/example/addressbook/util/XmlParser.kt:121-128 | a record is valid exactly when its name and its email each hold a non-whitespace character; the email's shape is not checked |
| XmlParser.ValidOnly | app/src/main/java/com/example/addressbook/util/XmlParser.kt:77-78 | the records kept are valid records of the input |
| XmlParser.ValidOnlyInOrder | app/src/main/java/com/example/addressbook/util/XmlParser.kt:77-78 | the records kept keep their document order |
| XmlParser.ValidOnlyCounts | app/src/main/java/com/example/addressbook/util/XmlParser.kt:77-78 | every valid record is kept as often as the document holds it, and no invalid one is kept |
| XmlParser.FieldFills | app/src/main/java/com/example/addressbook/util/XmlParser.kt:49-66 | one field element fills the field it names |
| XmlParser.FieldsFill | app/src/main/java/com/example/addressbook/util/XmlParser.kt:49-66 | a run of distinct field elements fills exactly the fields it names and leaves the others as they were |
| XmlParser.RecordRoundTrip | app/src/main/java/com/example/addressbook/util/XmlParser.kt:32-87 | one `<Contact>` element adds the contact it describes if it is valid, and nothing otherwise |
| XmlParser.RecordsRoundTrip | app/src/main/java/com/example/addressbook/util/XmlParser.kt:26-91 | a run of records adds their valid ones, in order |
| XmlParser.ClassifyRunning | app/src/main/java/com/example/addressbook/util/XmlParser.kt:93-119 | a loop that ends with the root tag seen gives `EmptyFile` without records and `Success` with their count and list otherwise |
| XmlParser.ImportRoundTrip | app/src/main/java/com/example/addressbook/util/XmlParser.kt:105-119 | importing an address book document gives back its valid records, in order and counted, or `EmptyFile` when none is valid |
| Dao.KeyIdentifies | app/src/main/java/com/example/addressbook/domain/Contact.kt:19-20 | two stored rows with the same primary key are the same row |
| Dao.Put | app/src/main/java/com/example/addressbook/data/ContactDao.kt:13-14 | writing under a key replaces the row with that key or adds one, keeps keys ascending and changes nothing else |
| Dao.Remove | app/src/main/java/com/example/addressbook/data/ContactDao.kt:16-17 | removing a key drops exactly the row with that key |
| Dao.Upsert | app/src/main/java/com/example/addressbook/data/ContactDao.kt:13-14 | the contact is stored under its assigned key, any row with that key is replaced, the rest stay, and id 0 takes a fresh key so the table grows by one |
| Dao.Delete | app/src/main/java/com/example/addressbook/data/ContactDao.kt:16-17 | exactly the row keyed by the contact's id goes, every other row stays |
| Dao.PrecedesTotal | app/src/main/java/com/example/addressbook/data/ContactDao.kt:19-23 | any two rows are ordered by the query one way or the other |
| Dao.PrecedesTransitive | app/src/main/java/com/example/addressbook/data/ContactDao.kt:19-23 | the query's row order is transitive |
| Dao.Insert | app/src/main/java/com/example/addressbook/data/ContactDao.kt:19-23 | adding a row to an ordered result keeps it ordered and adds just that row |
| Dao.SortBy | app/src/main/java/com/example/addressbook/data/ContactDao.kt:19-23 | an ORDER BY result is an ordered permutation of the rows |
| Dao.SortedByName | app/src/main/java/com/example/addressbook/data/ContactDao.kt:19-20 | every stored contact, each once, names ascending |
| Dao.SortedByEmail | app/src/main/java/com/example/addressbook/data/ContactDao.kt:22-23 | every stored contact, each once, emails ascending |
| Dao.SortedQueriesAgree | app/src/main/java/com/example/addressbook/data/ContactDao.kt:19-23 | the email-sorted result is a permutation of the name-sorted one |
| Dao.WithName | app/src/main/java/com/example/addressbook/data/ContactDao.kt:25-26 | exactly the stored contacts whose name equals the given one |
| Dao.DeleteAtNamePosition | app/src/main/java/com/example/addressbook/presentation/WebViewModel.kt:36-40 | the contact at a position of the name-sorted result is stored, and deleting it removes that one record only |
| Dao.DeleteStored | app/src/main/java/com/example/addressbook/data/ContactDao.kt:16-17 | deleting a stored contact removes that record and keeps every other one, because the id is the key |
| Dao.ContactDao.constructor | app/src/main/java/com/example/addressbook/data/ContactDao.kt:10-28 | the store starts empty |
| Dao.ContactDao.InsertContact | app/src/main/java/com/example/addressbook/data/ContactDao.kt:13-14 | the store's table becomes the upsert of the old one |
| Dao.ContactDao.DeleteContact | app/src/main/java/com/example/addressbook/data/ContactDao.kt:16-17 | the store's table becomes the old one less the contact's key |
| Dao.ContactDao.GetContactsSortedByName | app/src/main/java/com/example/addressbook/data/ContactDao.kt:19-20 | every stored row once, names ascending |
| Dao.ContactDao.GetContactsSortedByEmail | app/src/main/java/com/example/addressbook/data/ContactDao.kt:22-23 | every stored row once, emails ascending |
| Dao.ContactDao.GetContactsByName | app/src/main/java/com/example/addressbook/data/ContactDao.kt:25-26 | exactly the stored rows whose name equals the given one |
| ViewModel.KeepMatching | app/src/main/java/com/example/addressbook/presentation/ContactViewModel.kt:52-56 | keeps, in order, each contact whose name or email contains the query ignoring case, as often as it occurs, and no other |
| ViewModel.FilterContacts | app/src/main/java/com/example/addressbook/presentation/ContactViewModel.kt:48-58 | a blank query returns the list unchanged; otherwise an order-preserving sub-list holding exactly the matching contacts |
| ViewModel.SearchExample | app/src/main/java/com/example/addressbook/presentation/ContactViewModel.kt:48-58 | searching "doe" among "John Doe" and "Jane Roe" keeps only "John Doe" |
| ViewModel.SortedContacts | app/src/main/java/com/example/addressbook/presentation/ContactViewModel.kt:29-36 | the list for the chosen sort type is every stored contact once, ascending in that sort's column |
| ViewModel.Published | app/src/main/java/com/example/addressbook/presentation/ContactViewModel.kt:40-46 | the published state carries the sort type, every stored contact once in that sort's order, and the search over them: the whole list for a blank query, otherwise the matching contacts in order; every other field is `_state`'s |
| ViewModel.DraftContact | app/src/main/java/com/example/addressbook/presentation/ContactViewModel.kt:128-140 | the contact built from the form has the default id 0 and loading it back into the form leaves the form unchanged |
| ViewModel.DraftOfLoaded | app/src/main/java/com/example/addressbook/presentation/ContactViewModel.kt:71-90 | filling the form from a contact and building a contact from the form gives that contact under id 0 |
| ViewModel.NameTakenMeans | app/src/main/java/com/example/addressbook/presentation/ContactViewModel.kt:346-349 | the duplicate check is true exactly when a stored contact has that exact name |
| ViewModel.Step | app/src/main/java/com/example/addressbook/presentation/ContactViewModel.kt:60-310 | every event leaves the store well formed: unique ascending keys, none above the counter |
| ViewModel.EditContactLoadsDraft | app/src/main/java/com/example/addressbook/presentation/ContactViewModel.kt:71-90 | editing opens the dialog in edit mode on that contact with its eleven fields in the form, and touches no store |
| ViewModel.HideDialogClearsDraft | app/src/main/java/com/example/addressbook/presentation/ContactViewModel.kt:98-118 | hiding the dialog closes it, leaves edit mode, empties all eleven draft fields and keeps both field errors |
| ViewModel.InvalidDraftNotSaved | app/src/main/java/com/example/addressbook/presentation/ContactViewModel.kt:127-143 | an invalid draft sets "Name is required" and "Email is required" or "Invalid email format", makes no store call and leaves the dialog as it was |
| ViewModel.DuplicateDraftNotSaved | app/src/main/java/com/example/addressbook/presentation/ContactViewModel.kt:144-152 | a valid draft whose name is stored sets "A contact with this name already exists" and neither deletes nor inserts |
| ViewModel.EditKeepingNameRefused | app/src/main/java/com/example/addressbook/presentation/ContactViewModel.kt:144-157 | an edit that keeps the edited contact's name is refused as a duplicate, so nothing is deleted |
| ViewModel.SaveNewName | app/src/main/java/com/example/addressbook/presentation/ContactViewModel.kt:153-175 | a valid draft with a new name is stored under a fresh key after the edited contact is deleted; the dialog closes, the form empties, and `isEditing`/`editingContact` stay |
| ViewModel.EditReplacesRecord | app/src/main/java/com/example/addressbook/presentation/ContactViewModel.kt:153-158 | editing A into a new name keeps the record count: A is gone and the draft is stored |
| ViewModel.SaveArgument | app/src/main/java/com/example/addressbook/presentation/ContactViewModel.kt:121-126 | a contact passed with the event is stored exactly when no stored contact has its name, with no validation and no state change |
| ViewModel.SetterChangesOnlyItsField | app/src/main/java/com/example/addressbook/presentation/ContactViewModel.kt:190-280 | each setter changes only its own draft field; the name error clears only for a blank name, the email error only for a present valid email |
| ViewModel.SortSelectsQuery | app/src/main/java/com/example/addressbook/presentation/ContactViewModel.kt:290-292 | after choosing a sort, the published list is the whole table ordered by that column |
| ViewModel.StepKeepsNamesUnique | app/src/main/java/com/example/addressbook/presentation/ContactViewModel.kt:120-179 | no event of this view model stores two contacts with the same name |
| ViewModel.OnlySavesAndDeletesWrite | app/src/main/java/com/example/addressbook/presentation/ContactViewModel.kt:60-310 | every event other than `SaveContact` and `DeleteContact` leaves the store exactly as it was |
| ViewModel.FreshNameInsert | app/src/main/java/com/example/addressbook/presentation/ContactViewModel.kt:153-158 | storing a contact whose name is not stored keeps names unique, also after a delete |
| ViewModel.ImportContacts | app/src/main/java/com/example/addressbook/presentation/ImportDialog.kt:54-57 | the import dialog's sequence of saves and its banner event keeps the store well formed |
| ViewModel.SaveArgumentAddsName | app/src/main/java/com/example/addressbook/presentation/ContactViewModel.kt:121-126 | after saving a new contact its name is among the stored names, which otherwise stay the same |
| ViewModel.ImportStoresNames | app/src/main/java/com/example/addressbook/presentation/ImportDialog.kt:54-57 | after an import the stored names are the old ones plus the imported ones, and the banner reports the parsed count even when duplicates were skipped |
| ViewModel.ContactViewModel.constructor | app/src/main/java/com/example/addressbook/presentation/ContactViewModel.kt:23-38 | the view model starts with the default state, sorted by name |
| ViewModel.ContactViewModel.ValidateContact | app/src/main/java/com/example/addressbook/presentation/ContactViewModel.kt:312-340 | sets both field errors from the form and returns whether the name is present and the email present and valid |
| ViewModel.ContactViewModel.IsDuplicateContact | app/src/main/java/com/example/addressbook/presentation/ContactViewModel.kt:346-349 | true exactly when a stored contact has that exact name |
| ViewModel.ContactViewModel.Search | app/src/main/java/com/example/addressbook/presentation/ContactViewModel.kt:62-69 | records the query and refilters the current sorted list with it, which is the state `Step` gives for the event |
| ViewModel.ContactViewModel.SaveGiven | app/src/main/java/com/example/addressbook/presentation/ContactViewModel.kt:121-126 | a contact passed with the event is upserted unless its exact name is stored, which is the state `Step` gives for the event |
| ViewModel.ContactViewModel.SaveDraft | app/src/main/java/com/example/addressbook/presentation/ContactViewModel.kt:127-179 | validation, the duplicate check, deleting the edited contact, inserting the draft and clearing the form end in the state `Step` gives for the event |
| ViewModel.ContactViewModel.SetDraftField | app/src/main/java/com/example/addressbook/presentation/ContactViewModel.kt:190-280 | each of the eleven setters ends in the state `Step` gives for it |
| ViewModel.ContactViewModel.UpdateDialog | app/src/main/java/com/example/addressbook/presentation/ContactViewModel.kt:71-308 | editing, hiding or showing the dialog, the import banner and the details pane end in the state `Step` gives for the event, with the store untouched |
| ViewModel.ContactViewModel.OnEvent | app/src/main/java/com/example/addressbook/presentation/ContactViewModel.kt:60-310 | the view model and the store end in the state `Step` gives, so every reducer lemma holds of the object |
| ContactsList.ContactsViewModel.constructor | app/src/main/java/com/example/addressbook/presentation/ContactsViewModel.kt:22 | the list starts empty |
| ContactsList.ContactsViewModel.AddContact | app/src/main/java/com/example/addressbook/presentation/ContactsViewModel.kt:33-36 | the contact is appended and the earlier elements are unchanged |
| ContactsList.ContactsViewModel.DeleteContact | app/src/main/java/com/example/addressbook/presentation/ContactsViewModel.kt:38-41 | exactly element `index` is removed; the length drops by one and the rest keep their order |
| ContactsList.ContactsViewModel.UpdateContact | app/src/main/java/com/example/addressbook/presentation/ContactsViewModel.kt:43-46 | only element `index` is replaced; the length is unchanged |
| ContactsList.ContactsViewModel.SaveContactsFromJson | app/src/main/java/com/example/addressbook/presentation/ContactsViewModel.kt:48-53 | the whole list is replaced by the decoded list |
| WebView.WebViewModel.constructor | app/src/main/java/com/example/addressbook/presentation/WebViewModel.kt:19-20 | the mirror starts empty |
| WebView.WebViewModel.Collect | app/src/main/java/com/example/addressbook/presentation/WebViewModel.kt:22-28 | the mirror becomes the name-sorted query result: every stored contact, names ascending |
| WebView.WebViewModel.AddContact | app/src/main/java/com/example/addressbook/presentation/WebViewModel.kt:30-34 | the contact is upserted into the store |
| WebView.WebViewModel.DeleteContact | app/src/main/java/com/example/addressbook/presentation/WebViewModel.kt:36-40 | deletes the contact at that position of the mirror; when the mirror holds the stored rows (as after `Collect`), only that record goes and every other stays |
| WebView.WebViewModel.UpdateContact | app/src/main/java/com/example/addressbook/presentation/WebViewModel.kt:42-46 | only an upsert: an id-0 contact is added beside every existing record |
| WebView.AddSkipsNameCheck | app/src/main/java/com/example/addressbook/presentation/WebViewModel.kt:30-34 | adding through the web path under a stored name leaves two contacts with that name |

## Left out

- The `XmlPullParser` tokenizer is not modelled: its output is the input event sequence. The `Log.d` calls are left out too.
- `android.util.Patterns.EMAIL_ADDRESS` is a foreign regular expression, so it is a parameter of the view model.
- Flow and coroutine machinery is not modelled. This covers `flatMapLatest`, `stateIn`, `combine`, `viewModelScope.launch`, the 3-second clearing of the success banner (ContactViewModel.kt:184-187) and the possible lag between `_state`, `_contacts` and the combined `state`. Each event is one atomic step, and the published state is computed from the current table.
- `ViewModel.FilterContacts`, `KotlinText.IndexOfIgnoreCase`, `KotlinText.ContainsIgnoreCase`: `contains(ignoreCase = true)` is modelled with ASCII case folding only. Kotlin folds other letters too, so the model can miss some non-ASCII matches.
- `Dao.SortedByName`: SQLite leaves the order of rows with equal text unspecified. The model breaks such ties by rowid, and the contract promises only ascending text.
- `Dao.SortedByEmail`: ties are broken the same way, and the contract likewise promises only ascending text.
- `Dao.Upsert`: ids are unbounded integers, so the limit of the 64-bit rowid and the 32-bit `Int` id are not modelled. The same holds for the import count in the banner.
- `ContactsList.ContactsViewModel.DeleteContact`: an out-of-range index makes `removeAt` throw. Here it is a precondition.
- `ContactsList.ContactsViewModel.UpdateContact`: an out-of-range index makes the index assignment throw. Here it is a precondition.
- `WebView.WebViewModel.DeleteContact`: an out-of-range index throws inside the coroutine. Here it is a precondition.
- `ContactsList.ContactsViewModel.SaveContactsFromJson`: Gson decoding is foreign code, so the method takes the decoded list.
- Writing the list to `contacts.json` and reading it back (ContactsViewModel.kt:59-72) is file I/O and is not modelled.
- The two `getContactsAsJson` functions are not modelled: one is Gson encoding, the other is `List.toString()`.
- The import dialog's file picker, URL fetch and messages, the Compose screens, the web bridge and the JavaScript front-end are UI and I/O. Only the dialog's calls into the reducer (ImportDialog.kt:54-57) are modelled, as `ViewModel.ImportContacts`.
- Room/Hilt wiring (the database and dependency-injection modules) is not part of this model.
