/**
 * `WebViewModel` (presentation/WebViewModel.kt): the web front-end's view of the store. It keeps
 * a mirror of the name-sorted query and addresses records by their position in that mirror.
 * Each launched coroutine is one atomic step, as in the other view model.
 */
module WebView {
  import opened Domain
  import opened KotlinText
  import opened Dao
  import ViewModel

  class WebViewModel {
    const dao: ContactDao
    /** `_contacts`: the last list the name-sorted query delivered. */
    var contacts: seq<Contact>

    ghost predicate Valid()
      reads this, dao
    {
      dao.Valid()
    }

    /** The mirror starts empty, before the query has delivered anything. */
    constructor(dao: ContactDao)
      requires dao.Valid()
      ensures this.dao == dao && Valid() && contacts == []
    {
      this.dao := dao;
      contacts := [];
    }

    /** One delivery of `getContactsSortedByName().collect`: the mirror becomes the store's contacts in name order. */
    method Collect()
      requires Valid()
      modifies this
      ensures Valid()
      ensures multiset(contacts) == multiset(dao.table.rows)
      ensures forall i, j :: 0 <= i < j < |contacts| ==> LexLeq(contacts[i].contactName, contacts[j].contactName)
      ensures contacts == SortedByName(dao.table)
    {
      contacts := dao.GetContactsSortedByName();
    }

    /** `addContact`: an upsert into the store, with no name check. */
    method AddContact(contact: Contact)
      requires Valid()
      modifies dao
      ensures Valid() && dao.table == Upsert(old(dao.table), contact)
    {
      dao.InsertContact(contact);
    }

    /**
     * `deleteContact(index)`: deletes the contact at that position of the mirror, so the
     * `index`-th in name order when the mirror is current, and exactly that one record.
     */
    method DeleteContact(index: int)
      requires Valid() && 0 <= index < |contacts|
      modifies dao
      ensures Valid() && dao.table == Delete(old(dao.table), contacts[index])
      ensures multiset(contacts) == multiset(old(dao.table.rows)) ==>
                forall x :: x in dao.table.rows <==> x in old(dao.table.rows) && x != contacts[index]
    {
      if multiset(contacts) == multiset(dao.table.rows) {
        assert contacts[index] in multiset(contacts);
        DeleteStored(dao.table, contacts[index]);
      }
      dao.DeleteContact(contacts[index]);
    }

    /**
     * `updateContact`: only an upsert, nothing is deleted. A contact with id 0 therefore lands
     * beside the one it was meant to replace.
     */
    method UpdateContact(newContact: Contact)
      requires Valid()
      modifies dao
      ensures Valid() && dao.table == Upsert(old(dao.table), newContact)
      ensures newContact.id == 0 ==>
                |dao.table.rows| == |old(dao.table.rows)| + 1 && forall x :: x in old(dao.table.rows) ==> x in dao.table.rows
    {
      dao.InsertContact(newContact);
      if newContact.id == 0 {
        forall x | x in old(dao.table.rows) ensures x in dao.table.rows {
          assert x.id <= old(dao.table.lastId);
        }
      }
    }
  }

  /**
   * The web path skips the duplicate-name check of the reducer: adding a new contact under a
   * stored name leaves two stored contacts with that name.
   */
  lemma AddSkipsNameCheck(t: Table, c: Contact, existing: Contact)
    requires Wellformed(t) && c.id == 0
    requires existing in t.rows && existing.contactName == c.contactName
    ensures !ViewModel.UniqueNames(Upsert(t, c).rows)
  {
    var stored := c.(id := t.lastId + 1);
    assert existing.id <= t.lastId;
    assert existing in Upsert(t, c).rows && stored in Upsert(t, c).rows;
    assert existing != stored;
  }
}
