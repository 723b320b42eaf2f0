/**
 * The contact table behind `ContactDao` (data/ContactDao.kt), as Room and SQLite run it.
 *
 * The table is a value: its rows in rowid order and the largest id ever handed out (SQLite's
 * AUTOINCREMENT counter). `ContactDao` is the object whose writes replace that value.
 */
module Dao {
  import opened Domain
  import opened KotlinText

  datatype Table = Table(rows: seq<Contact>, lastId: int)

  const EmptyTable := Table([], 0)

  predicate IdsAscending(rows: seq<Contact>) {
    forall i, j :: 0 <= i < j < |rows| ==> rows[i].id < rows[j].id
  }

  predicate HasId(rows: seq<Contact>, id: int) {
    exists i :: 0 <= i < |rows| && rows[i].id == id
  }

  /** Rows keyed by a unique non-zero id, none above the AUTOINCREMENT counter. */
  predicate Wellformed(t: Table) {
    && IdsAscending(t.rows)
    && t.lastId >= 0
    && forall i :: 0 <= i < |t.rows| ==> t.rows[i].id != 0 && t.rows[i].id <= t.lastId
  }

  lemma AscendingTail(rows: seq<Contact>)
    requires rows != [] && IdsAscending(rows)
    ensures IdsAscending(rows[1..])
    ensures forall x :: x in rows[1..] ==> rows[0].id < x.id
  {
  }

  lemma HasIdCons(rows: seq<Contact>, id: int)
    requires rows != [] && IdsAscending(rows)
    ensures HasId(rows, id) <==> rows[0].id == id || HasId(rows[1..], id)
    ensures rows[0].id == id ==> !HasId(rows[1..], id)
  {
    if HasId(rows, id) && rows[0].id != id {
      var i :| 0 <= i < |rows| && rows[i].id == id;
      assert rows[1..][i - 1].id == id;
    }
    if HasId(rows[1..], id) {
      var i :| 0 <= i < |rows[1..]| && rows[1..][i].id == id;
      assert rows[i + 1].id == id;
    }
  }

  /** Two stored rows with the same key are the same row. */
  lemma KeyIdentifies(rows: seq<Contact>, x: Contact, y: Contact)
    requires IdsAscending(rows) && x in rows && y in rows && x.id == y.id
    ensures x == y
  {
  }

  /** Writes `c` under its id: replaces the row with that id, or inserts it where the ids stay ascending. */
  function Put(rows: seq<Contact>, c: Contact): (r: seq<Contact>)
    requires IdsAscending(rows)
    ensures IdsAscending(r)
    ensures forall x :: x in r <==> x == c || (x in rows && x.id != c.id)
    ensures |r| == if HasId(rows, c.id) then |rows| else |rows| + 1
  {
    if rows == [] then [c]
    else if rows[0].id == c.id then [c] + rows[1..]
    else if c.id < rows[0].id then [c] + rows
    else
      AscendingTail(rows);
      HasIdCons(rows, c.id);
      [rows[0]] + Put(rows[1..], c)
  }

  /** Deletes the row with the given id, if there is one; the others stay, in order. */
  function Remove(rows: seq<Contact>, id: int): (r: seq<Contact>)
    requires IdsAscending(rows)
    ensures IdsAscending(r)
    ensures forall x :: x in r <==> x in rows && x.id != id
    ensures |r| == if HasId(rows, id) then |rows| - 1 else |rows|
  {
    if rows == [] then []
    else
      AscendingTail(rows);
      HasIdCons(rows, id);
      var tail := Remove(rows[1..], id);
      if rows[0].id == id then tail else [rows[0]] + tail
  }

  /** The key a row is stored under: 0 means "not set" and takes the next AUTOINCREMENT value. */
  function AssignedId(t: Table, c: Contact): int {
    if c.id == 0 then t.lastId + 1 else c.id
  }

  /**
   * `@Upsert insertContact`: `c` is stored under its assigned key, replacing the row with that
   * key if there was one; every other row stays. A contact with id 0 gets a key no row had, so
   * the table grows by one.
   */
  function Upsert(t: Table, c: Contact): (r: Table)
    requires Wellformed(t)
    ensures Wellformed(r)
    ensures forall x :: x in r.rows <==> x == c.(id := AssignedId(t, c)) || (x in t.rows && x.id != AssignedId(t, c))
    ensures c.id == 0 ==> !HasId(t.rows, AssignedId(t, c)) && |r.rows| == |t.rows| + 1
  {
    var key := AssignedId(t, c);
    var stored := c.(id := key);
    var r := Table(Put(t.rows, stored), if key > t.lastId then key else t.lastId);
    assert forall i :: 0 <= i < |r.rows| ==> r.rows[i] in r.rows;
    r
  }

  /** `@Delete deleteContact`: removes the row whose key is the contact's id, whatever its other fields say. */
  function Delete(t: Table, c: Contact): (r: Table)
    requires Wellformed(t)
    ensures Wellformed(r)
    ensures forall x :: x in r.rows <==> x in t.rows && x.id != c.id
    ensures |r.rows| == if HasId(t.rows, c.id) then |t.rows| - 1 else |t.rows|
    ensures r.lastId == t.lastId
  {
    var r := Table(Remove(t.rows, c.id), t.lastId);
    assert forall i :: 0 <= i < |r.rows| ==> r.rows[i] in r.rows;
    r
  }

  /** The text column an ORDER BY sorts on. */
  function Column(sort: SortType, c: Contact): string {
    match sort
    case ByName => c.contactName
    case ByEmail => c.email
  }

  /**
   * `a` comes before `b` in the query's order: the column ascending in SQLite's BINARY collation,
   * and rows with equal text in rowid order, the order in which the table is scanned.
   */
  predicate Precedes(sort: SortType, a: Contact, b: Contact) {
    var x, y := Column(sort, a), Column(sort, b);
    (x != y && LexLeq(x, y)) || (x == y && a.id <= b.id)
  }

  predicate SortedBy(sort: SortType, s: seq<Contact>) {
    forall i, j :: 0 <= i < j < |s| ==> Precedes(sort, s[i], s[j])
  }

  lemma PrecedesTotal(sort: SortType, a: Contact, b: Contact)
    ensures Precedes(sort, a, b) || Precedes(sort, b, a)
  {
    LexLeqTotal(Column(sort, a), Column(sort, b));
  }

  lemma PrecedesTransitive(sort: SortType, a: Contact, b: Contact, c: Contact)
    requires Precedes(sort, a, b) && Precedes(sort, b, c)
    ensures Precedes(sort, a, c)
  {
    var x, y, z := Column(sort, a), Column(sort, b), Column(sort, c);
    if x != y && y != z {
      LexLeqTransitive(x, y, z);
      if x == z {
        LexLeqAntisymmetric(x, y);
      }
    }
  }

  /** A row that precedes every row of a sorted sequence may go in front of it. */
  lemma SortedCons(sort: SortType, x: Contact, s: seq<Contact>)
    requires SortedBy(sort, s)
    requires forall y :: y in s ==> Precedes(sort, x, y)
    ensures SortedBy(sort, [x] + s)
  {
    forall i, j | 0 <= i < j < |[x] + s| ensures Precedes(sort, ([x] + s)[i], ([x] + s)[j]) {
      if i > 0 {
        assert ([x] + s)[i] == s[i - 1];
      }
      assert ([x] + s)[j] == s[j - 1];
    }
  }

  /** What precedes the head of a sorted sequence precedes all of it. */
  lemma PrecedesHead(sort: SortType, x: Contact, s: seq<Contact>)
    requires SortedBy(sort, s) && s != [] && Precedes(sort, x, s[0])
    ensures forall y :: y in s ==> Precedes(sort, x, y)
  {
    forall y | y in s ensures Precedes(sort, x, y) {
      var j :| 0 <= j < |s| && s[j] == y;
      if j > 0 {
        PrecedesTransitive(sort, x, s[0], s[j]);
      }
    }
  }

  /** The head of a sorted sequence precedes its tail with one more row that it precedes. */
  lemma HeadPrecedes(sort: SortType, x: Contact, s: seq<Contact>, tail: seq<Contact>)
    requires SortedBy(sort, s) && s != [] && Precedes(sort, s[0], x)
    requires multiset(tail) == multiset(s[1..]) + multiset{x}
    ensures forall y :: y in tail ==> Precedes(sort, s[0], y)
  {
    forall y | y in tail ensures Precedes(sort, s[0], y) {
      assert y in multiset(tail);
      if y != x {
        assert y in multiset(s[1..]);
        var j :| 0 <= j < |s[1..]| && s[1..][j] == y;
        assert s[j + 1] == y;
      }
    }
  }

  /** Places `x` into a sorted sequence, keeping it sorted. */
  function Insert(sort: SortType, x: Contact, s: seq<Contact>): (r: seq<Contact>)
    requires SortedBy(sort, s)
    ensures SortedBy(sort, r)
    ensures multiset(r) == multiset(s) + multiset{x}
  {
    if s == [] then [x]
    else if Precedes(sort, x, s[0]) then
      PrecedesHead(sort, x, s);
      SortedCons(sort, x, s);
      [x] + s
    else
      assert SortedBy(sort, s[1..]);
      var tail := Insert(sort, x, s[1..]);
      assert s == [s[0]] + s[1..];
      PrecedesTotal(sort, x, s[0]);
      HeadPrecedes(sort, x, s, tail);
      SortedCons(sort, s[0], tail);
      [s[0]] + tail
  }

  /** The rows in the order the query returns them: a sorted permutation of the table. */
  function SortBy(sort: SortType, rows: seq<Contact>): (r: seq<Contact>)
    ensures SortedBy(sort, r)
    ensures multiset(r) == multiset(rows)
  {
    if rows == [] then []
    else
      assert rows == [rows[0]] + rows[1..];
      Insert(sort, rows[0], SortBy(sort, rows[1..]))
  }

  /** `getContactsSortedByName`: every stored contact, names ascending. */
  function SortedByName(t: Table): (r: seq<Contact>)
    ensures multiset(r) == multiset(t.rows)
    ensures forall i, j :: 0 <= i < j < |r| ==> LexLeq(r[i].contactName, r[j].contactName)
  {
    var r := SortBy(ByName, t.rows);
    forall i, j | 0 <= i < j < |r| ensures LexLeq(r[i].contactName, r[j].contactName) {
      LexLeqReflexive(r[i].contactName);
    }
    r
  }

  /** `getContactsSortedByEmail`: every stored contact, emails ascending. */
  function SortedByEmail(t: Table): (r: seq<Contact>)
    ensures multiset(r) == multiset(t.rows)
    ensures forall i, j :: 0 <= i < j < |r| ==> LexLeq(r[i].email, r[j].email)
  {
    var r := SortBy(ByEmail, t.rows);
    forall i, j | 0 <= i < j < |r| ensures LexLeq(r[i].email, r[j].email) {
      LexLeqReflexive(r[i].email);
    }
    r
  }

  /** The two sorted queries return the same contacts, each once. */
  lemma SortedQueriesAgree(t: Table)
    ensures multiset(SortedByEmail(t)) == multiset(SortedByName(t))
    ensures |SortedByEmail(t)| == |SortedByName(t)| == |t.rows|
  {
    assert |multiset(SortedByEmail(t))| == |multiset(t.rows)|;
  }

  /** `getContactsByName`: exactly the stored contacts with that name, in rowid order. */
  function WithName(rows: seq<Contact>, name: string): (r: seq<Contact>)
    requires IdsAscending(rows)
    ensures IdsAscending(r)
    ensures forall x :: x in r <==> x in rows && x.contactName == name
  {
    if rows == [] then []
    else
      AscendingTail(rows);
      var tail := WithName(rows[1..], name);
      if rows[0].contactName == name then [rows[0]] + tail else tail
  }

  /** The name-sorted query names every stored contact exactly once, so a position in it names one row. */
  lemma DeleteAtNamePosition(t: Table, i: nat)
    requires Wellformed(t) && i < |SortedByName(t)|
    ensures var target := SortedByName(t)[i];
            && target in t.rows
            && forall x :: x in Delete(t, target).rows <==> x in t.rows && x != target
  {
    var target := SortedByName(t)[i];
    assert target in multiset(SortedByName(t));
    DeleteStored(t, target);
  }

  /** Deleting a stored contact removes that record and no other: the id is a key. */
  lemma DeleteStored(t: Table, target: Contact)
    requires Wellformed(t) && target in t.rows
    ensures forall x :: x in Delete(t, target).rows <==> x in t.rows && x != target
  {
    forall x | x in t.rows && x.id == target.id ensures x == target {
      KeyIdentifies(t.rows, x, target);
    }
  }

  /** The store object: its writes replace the table, its queries read it. */
  class ContactDao {
    var table: Table

    ghost predicate Valid()
      reads this
    {
      Wellformed(table)
    }

    constructor()
      ensures Valid() && table == EmptyTable
    {
      table := EmptyTable;
    }

    method InsertContact(c: Contact)
      requires Valid()
      modifies this
      ensures Valid() && table == Upsert(old(table), c)
    {
      table := Upsert(table, c);
    }

    method DeleteContact(c: Contact)
      requires Valid()
      modifies this
      ensures Valid() && table == Delete(old(table), c)
    {
      table := Delete(table, c);
    }

    /** `SELECT * FROM contact ORDER BY contactName ASC`: every row once, names ascending. */
    function GetContactsSortedByName(): (r: seq<Contact>)
      reads this
      ensures multiset(r) == multiset(table.rows)
      ensures forall i, j :: 0 <= i < j < |r| ==> LexLeq(r[i].contactName, r[j].contactName)
    {
      SortedByName(table)
    }

    /** `SELECT * FROM contact ORDER BY email ASC`: every row once, emails ascending. */
    function GetContactsSortedByEmail(): (r: seq<Contact>)
      reads this
      ensures multiset(r) == multiset(table.rows)
      ensures forall i, j :: 0 <= i < j < |r| ==> LexLeq(r[i].email, r[j].email)
    {
      SortedByEmail(table)
    }

    /** `SELECT * FROM contact WHERE contactName = :contactName`: exactly the rows with that name. */
    function GetContactsByName(name: string): (r: seq<Contact>)
      requires Valid()
      reads this
      ensures forall x :: x in r <==> x in table.rows && x.contactName == name
    {
      WithName(table.rows, name)
    }
  }
}
