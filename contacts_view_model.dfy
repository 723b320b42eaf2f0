/**
 * `ContactsViewModel` (presentation/ContactsViewModel.kt): a plain list of contacts that the web
 * front-end edits by position. Every write reassigns the list; writing it to `contacts.json`
 * is not part of this model.
 */
module ContactsList {
  import opened Domain

  class ContactsViewModel {
    var contacts: seq<Contact>

    /** The list starts empty. */
    constructor()
      ensures contacts == []
    {
      contacts := [];
    }

    /** `addContact`: the contact goes at the end, every earlier element stays where it was. */
    method AddContact(contact: Contact)
      modifies this
      ensures |contacts| == |old(contacts)| + 1
      ensures contacts[..|old(contacts)|] == old(contacts)
      ensures contacts[|old(contacts)|] == contact
    {
      contacts := contacts + [contact];
    }

    /**
     * `deleteContact(index)`: exactly element `index` goes, the rest close up in their order.
     * `removeAt` throws for an index out of range, which the precondition excludes.
     */
    method DeleteContact(index: int)
      requires 0 <= index < |contacts|
      modifies this
      ensures |contacts| == |old(contacts)| - 1
      ensures forall j :: 0 <= j < index ==> contacts[j] == old(contacts)[j]
      ensures forall j :: index <= j < |contacts| ==> contacts[j] == old(contacts)[j + 1]
    {
      contacts := contacts[..index] + contacts[index + 1..];
    }

    /** `updateContact(index, newContact)`: element `index` is replaced, nothing else changes. */
    method UpdateContact(index: int, newContact: Contact)
      requires 0 <= index < |contacts|
      modifies this
      ensures |contacts| == |old(contacts)|
      ensures contacts[index] == newContact
      ensures forall j :: 0 <= j < |contacts| && j != index ==> contacts[j] == old(contacts)[j]
    {
      contacts := contacts[index := newContact];
    }

    /** `saveContactsFromJson`, given the list Gson decoded: the whole list is replaced by it. */
    method SaveContactsFromJson(parsed: seq<Contact>)
      modifies this
      ensures contacts == parsed
    {
      contacts := parsed;
    }
  }
}
