/**
 * The bulk XML importer (util/XmlParser.kt) and its outcome type (util/ImportResult.kt).
 *
 * The pull parser is abstracted as the sequence of events it reports for the document:
 * start tags, text, end tags, and `Malformed` for the point where `next()` throws because
 * the markup is broken. The end of the sequence is END_DOCUMENT.
 */
module XmlParser {
  import opened Wrappers
  import opened KotlinText
  import opened Domain

  /** The four outcomes of an import. */
  datatype ImportResult =
    | Success(count: int, contacts: seq<Contact>)
    | Error(message: string)
    | InvalidFormat
    | EmptyFile

  datatype XmlEvent =
    | StartTag(name: string)
    | Text(text: string)
    | EndTag(name: string)
    | Malformed(message: Option<string>)

  /** What `parseXml` throws: its own `IllegalArgumentException`s, or the pull parser's exception. */
  datatype Thrown =
    | IllegalArgument(reason: string)
    | ParserException(detail: Option<string>)

  datatype ParseOutcome = Parsed(contacts: seq<Contact>) | Threw(exception: Thrown)

  /** The loop variables of `parseXml`. */
  datatype Scan = Scan(contacts: seq<Contact>, current: Option<Contact>, tag: string, hasValidStructure: bool)

  /** The loop either keeps going or has been stopped by the parser's exception. */
  datatype Progress = Running(scan: Scan) | Failed(message: Option<string>)

  const EmptyFileMessage := "Empty file"
  const InvalidFormatMessage := "Invalid XML format"
  const NoContactsMessage := "No valid contacts found"
  const UnknownErrorMessage := "Unknown error occurred"

  const Start := Scan([], None, "", false)

  /** The draft that every `<Contact>` opens: eleven empty fields and the default id. */
  const EmptyDraft := Contact("", "", "", "", "", "", "", "", "", "", "", 0)

  /** `Contact.isValid()` in the importer: name and email present; the email's shape is not checked. */
  predicate IsValid(c: Contact)
    ensures IsValid(c) <==>
              (exists i :: 0 <= i < |c.contactName| && !IsWhitespace(c.contactName[i])) &&
              (exists i :: 0 <= i < |c.email| && !IsWhitespace(c.email[i]))
  {
    !IsBlank(c.contactName) && !IsBlank(c.email)
  }

  /** One pass of the loop body for an event the parser delivered. */
  function Step(s: Scan, e: XmlEvent): Scan
    requires !e.Malformed?
  {
    match e
    case StartTag(name) =>
      Scan(s.contacts,
           if name == "Contact" then Some(EmptyDraft) else s.current,
           name,
           s.hasValidStructure || name == "AddressBook")
    case Text(raw) =>
      var text := Trim(raw);
      if text != [] && s.current.Some? then
        match FieldNamed(s.tag)
        case Some(f) => s.(current := Some(SetField(s.current.value, f, text)))
        case None => s
      else s
    case EndTag(name) =>
      if name == "Contact" then
        Scan(if s.current.Some? && IsValid(s.current.value) then s.contacts + [s.current.value] else s.contacts,
             None, "", s.hasValidStructure)
      else s
  }

  function Advance(p: Progress, e: XmlEvent): Progress {
    match p
    case Failed(_) => p
    case Running(s) => if e.Malformed? then Failed(e.message) else Running(Step(s, e))
  }

  /** The loop run over the remaining events. */
  function Feed(p: Progress, events: seq<XmlEvent>): Progress
    decreases |events|
  {
    if events == [] then p else Feed(Advance(p, events[0]), events[1..])
  }

  /** `parseXml`: blank input, parser exception, missing `AddressBook`, no record, or the records. */
  function ParseXmlSpec(content: string, events: seq<XmlEvent>): ParseOutcome {
    if IsBlank(content) then Threw(IllegalArgument(EmptyFileMessage))
    else match Feed(Running(Start), events)
      case Failed(m) => Threw(ParserException(m))
      case Running(s) =>
        if !s.hasValidStructure then Threw(IllegalArgument(InvalidFormatMessage))
        else if s.contacts == [] then Threw(IllegalArgument(NoContactsMessage))
        else Parsed(s.contacts)
  }

  /** The `try`/`catch` of `parseContactsXml`, which sorts what `parseXml` did into an `ImportResult`. */
  function Classify(o: ParseOutcome): ImportResult {
    match o
    case Parsed(cs) => Success(|cs|, cs)
    case Threw(IllegalArgument(m)) =>
      if m == EmptyFileMessage then EmptyFile
      else if m == InvalidFormatMessage then InvalidFormat
      else if m == NoContactsMessage then EmptyFile
      else Error(m)
    case Threw(ParserException(m)) => Error(m.GetOr(UnknownErrorMessage))
  }

  function ImportSpec(content: string, events: seq<XmlEvent>): ImportResult {
    Classify(ParseXmlSpec(content, events))
  }

  /** `parseXml`, the event loop. */
  method ParseXml(content: string, events: seq<XmlEvent>) returns (o: ParseOutcome)
    ensures o == ParseXmlSpec(content, events)
  {
    if IsBlank(content) {
      return Threw(IllegalArgument(EmptyFileMessage));
    }
    var contacts: seq<Contact> := [];
    var currentContact: Option<Contact> := None;
    var currentTag := "";
    var hasValidStructure := false;
    var i := 0;
    while i < |events|
      invariant 0 <= i <= |events|
      invariant Feed(Running(Scan(contacts, currentContact, currentTag, hasValidStructure)), events[i..])
             == Feed(Running(Start), events)
    {
      var e := events[i];
      assert events[i..] == [e] + events[i + 1..];
      match e {
        case StartTag(name) =>
          currentTag := name;
          if currentTag == "AddressBook" {
            hasValidStructure := true;
          }
          if currentTag == "Contact" {
            currentContact := Some(EmptyDraft);
          }
        case Text(raw) =>
          var text := Trim(raw);
          if text != [] && currentContact.Some? {
            match FieldNamed(currentTag) {
              case Some(f) => currentContact := Some(SetField(currentContact.value, f, text));
              case None =>
            }
          }
        case EndTag(name) =>
          if name == "Contact" {
            if currentContact.Some? && IsValid(currentContact.value) {
              contacts := contacts + [currentContact.value];
            }
            currentContact := None;
            currentTag := "";
          }
        case Malformed(m) =>
          FailedStays(m, events[i + 1..]);
          return Threw(ParserException(m));
      }
      i := i + 1;
    }
    if !hasValidStructure {
      return Threw(IllegalArgument(InvalidFormatMessage));
    }
    if contacts == [] {
      return Threw(IllegalArgument(NoContactsMessage));
    }
    return Parsed(contacts);
  }

  /** `parseContactsXml`. */
  method ParseContactsXml(content: string, events: seq<XmlEvent>) returns (r: ImportResult)
    ensures r == ImportSpec(content, events)
  {
    var o := ParseXml(content, events);
    match o {
      case Parsed(cs) =>
        r := Success(|cs|, cs);
      case Threw(IllegalArgument(m)) =>
        if m == EmptyFileMessage {
          r := EmptyFile;
        } else if m == InvalidFormatMessage {
          r := InvalidFormat;
        } else if m == NoContactsMessage {
          r := EmptyFile;
        } else {
          r := Error(m);
        }
      case Threw(ParserException(m)) =>
        r := Error(m.GetOr(UnknownErrorMessage));
    }
  }

  // ---------------------------------------------------------------------------
  // Properties of the event loop

  /** A `<Contact>` start tag opens a fresh draft: eleven empty fields and id 0, whatever was open before. */
  lemma {:induction false} ContactTagOpensDraft(s: Scan)
    ensures var r := Step(s, StartTag("Contact"));
            && r.current.Some? && r.current.value.id == 0
            && (forall f :: FieldOf(r.current.value, f) == "")
            && r.contacts == s.contacts && r.tag == "Contact"
  {
  }

  /**
   * Text that is not blank, inside an open draft, under a field's element sets that field to the
   * trimmed text, replacing what an earlier text put there; the other fields stay.
   */
  lemma {:induction false} TextSetsField(s: Scan, f: FieldName, raw: string)
    requires s.current.Some? && s.tag == Tag(f) && !IsBlank(raw)
    ensures var r := Step(s, Text(raw));
            && r.current.Some?
            && FieldOf(r.current.value, f) == Trim(raw)
            && (forall g :: g != f ==> FieldOf(r.current.value, g) == FieldOf(s.current.value, g))
            && r.contacts == s.contacts && r.tag == s.tag
  {
    assert FieldNamed(s.tag) == Some(f);
    assert Trim(raw) != [];
    assert Step(s, Text(raw)) == s.(current := Some(SetField(s.current.value, f, Trim(raw))));
  }

  /** Blank text, text with no open draft, and text under an element that names no field change nothing. */
  lemma {:induction false} TextIgnored(s: Scan, raw: string)
    requires IsBlank(raw) || s.current.None? || FieldNamed(s.tag).None?
    ensures Step(s, Text(raw)) == s
  {
  }

  /** Once the parser has thrown, nothing that follows is read. */
  lemma {:induction false} FailedStays(m: Option<string>, events: seq<XmlEvent>)
    ensures Feed(Failed(m), events) == Failed(m)
    decreases |events|
  {
    if events != [] {
      FailedStays(m, events[1..]);
    }
  }

  /** The loop over two stretches of the document is the loop over the first, then the second. */
  lemma {:induction false} FeedAppend(p: Progress, a: seq<XmlEvent>, b: seq<XmlEvent>)
    ensures Feed(p, a + b) == Feed(Feed(p, a), b)
    decreases |a|
  {
    if a == [] {
      assert a + b == b;
    } else {
      assert (a + b)[1..] == a[1..] + b;
      FeedAppend(Advance(p, a[0]), a[1..], b);
    }
  }

  predicate NoMalformed(events: seq<XmlEvent>) {
    forall i :: 0 <= i < |events| ==> !events[i].Malformed?
  }

  predicate HasRootTag(events: seq<XmlEvent>) {
    exists i :: 0 <= i < |events| && events[i] == StartTag("AddressBook")
  }

  /**
   * With no parser exception the loop runs to the end; `hasValidStructure` ends up true exactly
   * when it already was or some start tag is named `AddressBook`.
   */
  lemma {:induction false} RootFlag(s: Scan, events: seq<XmlEvent>)
    requires NoMalformed(events)
    ensures Feed(Running(s), events).Running?
    ensures Feed(Running(s), events).scan.hasValidStructure <==> s.hasValidStructure || HasRootTag(events)
    decreases |events|
  {
    if events != [] {
      var rest := events[1..];
      assert NoMalformed(rest) by {
        forall i | 0 <= i < |rest| ensures !rest[i].Malformed? {
          assert rest[i] == events[i + 1];
        }
      }
      RootFlag(Step(s, events[0]), rest);
      RootTagCons(events);
    }
  }

  lemma {:induction false} RootTagCons(events: seq<XmlEvent>)
    requires events != []
    ensures HasRootTag(events) <==> events[0] == StartTag("AddressBook") || HasRootTag(events[1..])
  {
    if HasRootTag(events[1..]) {
      var i :| 0 <= i < |events[1..]| && events[1..][i] == StartTag("AddressBook");
      assert events[i + 1] == StartTag("AddressBook");
    }
    if HasRootTag(events) {
      var i :| 0 <= i < |events| && events[i] == StartTag("AddressBook");
      if i > 0 {
        assert events[1..][i - 1] == StartTag("AddressBook");
      }
    }
  }

  /**
   * Accepted records are only ever appended: what was accepted before stays, in order, and
   * every record added passes `IsValid` and still carries the default id 0.
   */
  lemma {:induction false} AppendOnly(s: Scan, events: seq<XmlEvent>)
    requires forall c :: c in s.contacts ==> IsValid(c) && c.id == 0
    requires s.current.Some? ==> s.current.value.id == 0
    ensures Feed(Running(s), events).Running? ==>
              var r := Feed(Running(s), events).scan;
              && s.contacts <= r.contacts
              && (forall c :: c in r.contacts ==> IsValid(c) && c.id == 0)
              && (r.current.Some? ==> r.current.value.id == 0)
    decreases |events|
  {
    if events != [] {
      match Advance(Running(s), events[0]) {
        case Failed(m) =>
          FailedStays(m, events[1..]);
        case Running(s') =>
          AppendOnly(s', events[1..]);
      }
    }
  }

  function CountContactEnds(events: seq<XmlEvent>): nat {
    if events == [] then 0
    else (if events[0] == EndTag("Contact") then 1 else 0) + CountContactEnds(events[1..])
  }

  /** A record is only ever accepted at a `</Contact>`, so there are at most as many records as those. */
  lemma {:induction false} AtMostOnePerRecord(s: Scan, events: seq<XmlEvent>)
    ensures Feed(Running(s), events).Running? ==>
              |Feed(Running(s), events).scan.contacts| <= |s.contacts| + CountContactEnds(events)
    decreases |events|
  {
    if events != [] {
      match Advance(Running(s), events[0]) {
        case Failed(m) =>
          FailedStays(m, events[1..]);
        case Running(s') =>
          AtMostOnePerRecord(s', events[1..]);
      }
    }
  }

  // ---------------------------------------------------------------------------
  // Properties of the import outcome

  /** Blank content is an empty file, whatever the parser would have reported. */
  lemma {:induction false} BlankIsEmptyFile(content: string, events: seq<XmlEvent>)
    requires IsBlank(content)
    ensures ImportSpec(content, events) == EmptyFile
  {
  }

  /**
   * Without a start tag named `AddressBook` the import is `InvalidFormat`, even when records
   * were read: this check comes before the check for an empty result.
   */
  lemma {:induction false} NoRootIsInvalidFormat(content: string, events: seq<XmlEvent>)
    requires !IsBlank(content) && NoMalformed(events) && !HasRootTag(events)
    ensures ImportSpec(content, events) == InvalidFormat
  {
    RootFlag(Start, events);
  }

  /** With an `AddressBook` tag but no `</Contact>` at all, the import is `EmptyFile`. */
  lemma {:induction false} NoRecordIsEmptyFile(content: string, events: seq<XmlEvent>)
    requires !IsBlank(content) && NoMalformed(events) && HasRootTag(events)
    requires CountContactEnds(events) == 0
    ensures ImportSpec(content, events) == EmptyFile
  {
    RootFlag(Start, events);
    AtMostOnePerRecord(Start, events);
  }

  /**
   * A successful import reports as many contacts as it returns, at least one; each has a
   * non-blank name and email and the default id 0.
   */
  lemma {:induction false} SuccessShape(content: string, events: seq<XmlEvent>)
    requires ImportSpec(content, events).Success?
    ensures var r := ImportSpec(content, events);
            && r.count == |r.contacts| >= 1
            && (forall c :: c in r.contacts ==> IsValid(c) && c.id == 0)
  {
    AppendOnly(Start, events);
  }

  /**
   * Records appear in document order: the records accepted from a prefix of the document are a
   * prefix of the records accepted from all of it.
   */
  lemma {:induction false} DocumentOrder(events: seq<XmlEvent>, k: nat)
    requires k <= |events| && Feed(Running(Start), events).Running?
    ensures Feed(Running(Start), events[..k]).Running?
    ensures Feed(Running(Start), events[..k]).scan.contacts <= Feed(Running(Start), events).scan.contacts
  {
    var front, back := events[..k], events[k..];
    assert events == front + back;
    FeedAppend(Running(Start), front, back);
    var p := Feed(Running(Start), front);
    if p.Failed? {
      FailedStays(p.message, back);
      assert false;
    }
    AppendOnly(Start, front);
    AppendOnly(p.scan, back);
  }

  /**
   * When the parser throws, the import is `Error` with the parser's message, or with
   * "Unknown error occurred" when it has none.
   */
  lemma {:induction false} ParserFailureIsError(content: string, events: seq<XmlEvent>, k: nat)
    requires !IsBlank(content)
    requires k < |events| && events[k].Malformed? && NoMalformed(events[..k])
    ensures ImportSpec(content, events) == Error(events[k].message.GetOr(UnknownErrorMessage))
  {
    assert events == events[..k] + ([events[k]] + events[k + 1..]);
    FeedAppend(Running(Start), events[..k], [events[k]] + events[k + 1..]);
    RootFlag(Start, events[..k]);
    FailedStays(events[k].message, events[k + 1..]);
  }

  // ---------------------------------------------------------------------------
  // Round trip: the events of a well-formed address book give back its records

  /** The events of `<Tag>value</Tag>`; an empty element reports no text. */
  function Field(f: FieldName, value: string): seq<XmlEvent> {
    [StartTag(Tag(f))] + (if value == [] then [] else [Text(value)]) + [EndTag(Tag(f))]
  }

  function FieldsOf(c: Contact, fields: seq<FieldName>): seq<XmlEvent> {
    if fields == [] then [] else Field(fields[0], FieldOf(c, fields[0])) + FieldsOf(c, fields[1..])
  }

  /** `<Contact>` with all eleven field elements, then `</Contact>`. */
  function Record(c: Contact): seq<XmlEvent> {
    [StartTag("Contact")] + FieldsOf(c, AllFields) + [EndTag("Contact")]
  }

  function Records(cs: seq<Contact>): seq<XmlEvent> {
    if cs == [] then [] else Record(cs[0]) + Records(cs[1..])
  }

  function Document(cs: seq<Contact>): seq<XmlEvent> {
    [StartTag("AddressBook")] + Records(cs) + [EndTag("AddressBook")]
  }

  /** A contact that can travel through the XML unchanged: not yet stored, no field padded with whitespace. */
  ghost predicate Exportable(c: Contact) {
    c.id == 0 && forall f :: Trimmed(FieldOf(c, f))
  }

  /** The records the importer keeps, in order. */
  function ValidOnly(cs: seq<Contact>): (r: seq<Contact>)
    ensures forall c :: c in r ==> c in cs && IsValid(c)
  {
    if cs == [] then [] else (if IsValid(cs[0]) then [cs[0]] else []) + ValidOnly(cs[1..])
  }

  /** The importer keeps the records in document order. */
  lemma {:induction false} ValidOnlyInOrder(cs: seq<Contact>)
    ensures IsSubsequence(ValidOnly(cs), cs)
  {
    if cs != [] {
      ValidOnlyInOrder(cs[1..]);
      if IsValid(cs[0]) {
        assert ValidOnly(cs) == [cs[0]] + ValidOnly(cs[1..]);
      } else {
        assert ValidOnly(cs) == ValidOnly(cs[1..]);
      }
    }
  }

  /** The importer keeps the valid records and only those, each as often as the document holds it. */
  lemma {:induction false} ValidOnlyCounts(cs: seq<Contact>)
    ensures forall c :: multiset(ValidOnly(cs))[c] == if IsValid(c) then multiset(cs)[c] else 0
  {
    if cs != [] {
      ValidOnlyCounts(cs[1..]);
      assert cs == [cs[0]] + cs[1..];
      var kept := if IsValid(cs[0]) then [cs[0]] else [];
      assert ValidOnly(cs) == kept + ValidOnly(cs[1..]);
    }
  }

  lemma {:induction false} FieldStartStep(s: Scan, f: FieldName)
    ensures Step(s, StartTag(Tag(f))) == s.(tag := Tag(f))
  {
    assert Tag(f) != "AddressBook" && Tag(f) != "Contact";
  }

  lemma {:induction false} FieldTextStep(s: Scan, f: FieldName, value: string)
    requires s.current.Some? && s.tag == Tag(f) && value != [] && Trimmed(value)
    ensures Step(s, Text(value)) == s.(current := Some(SetField(s.current.value, f, value)))
  {
    TrimFixed(value);
    assert FieldNamed(s.tag) == Some(f);
  }

  lemma {:induction false} FieldEndStep(s: Scan, f: FieldName)
    ensures Step(s, EndTag(Tag(f))) == s
  {
    assert Tag(f) != "Contact";
  }

  /** One field element fills the field it names, provided the draft's field was still empty. */
  lemma {:induction false} FieldFills(s: Scan, f: FieldName, value: string)
    requires s.current.Some? && FieldOf(s.current.value, f) == ""
    requires Trimmed(value)
    ensures Feed(Running(s), Field(f, value))
         == Running(s.(current := Some(SetField(s.current.value, f, value)), tag := Tag(f)))
  {
    var d := s.current.value;
    var tag := Tag(f);
    var s1 := s.(tag := tag);
    var events := Field(f, value);
    FieldStartStep(s, f);
    assert Feed(Running(s), events) == Feed(Running(s1), events[1..]);
    if value == [] {
      FieldEndStep(s1, f);
      FieldsDetermine(d, SetField(d, f, value));
      assert events[1..] == [EndTag(tag)];
      assert [EndTag(tag)][1..] == [];
      assert Feed(Running(s1), [EndTag(tag)]) == Running(s1);
    } else {
      var s2 := s1.(current := Some(SetField(d, f, value)));
      FieldTextStep(s1, f, value);
      FieldEndStep(s2, f);
      assert events[1..] == [Text(value), EndTag(tag)];
      assert Feed(Running(s1), events[1..]) == Feed(Running(s2), [EndTag(tag)]);
      assert [EndTag(tag)][1..] == [];
      assert Feed(Running(s2), [EndTag(tag)]) == Running(s2);
    }
  }

  /**
   * A run of field elements fills each field it names, provided the draft's fields were still
   * empty; the draft it leaves is `d`, under the element name `tag` it saw last.
   */
  lemma {:induction false} FieldsFill(s: Scan, c: Contact, fields: seq<FieldName>) returns (d: Contact, tag: string)
    requires forall i, j :: 0 <= i < j < |fields| ==> fields[i] != fields[j]
    requires s.current.Some? && forall f :: f in fields ==> FieldOf(s.current.value, f) == ""
    requires forall f :: f in fields ==> Trimmed(FieldOf(c, f))
    ensures Feed(Running(s), FieldsOf(c, fields)) == Running(s.(current := Some(d), tag := tag))
    ensures d.id == s.current.value.id
    ensures forall f :: FieldOf(d, f) == if f in fields then FieldOf(c, f) else FieldOf(s.current.value, f)
    decreases |fields|
  {
    if fields == [] {
      d, tag := s.current.value, s.tag;
    } else {
      var d0 := s.current.value;
      var f0 := fields[0];
      var rest := fields[1..];
      var first := Field(f0, FieldOf(c, f0));
      var s' := s.(current := Some(SetField(d0, f0, FieldOf(c, f0))), tag := Tag(f0));
      assert Feed(Running(s), first) == Running(s') by {
        FieldFills(s, f0, FieldOf(c, f0));
      }
      assert forall f :: f in rest ==> FieldOf(s'.current.value, f) == "" by {
        forall f | f in rest ensures FieldOf(s'.current.value, f) == "" {
          var j :| 0 <= j < |rest| && rest[j] == f;
          assert fields[j + 1] == f;
        }
      }
      assert forall i, j :: 0 <= i < j < |rest| ==> rest[i] != rest[j] by {
        forall i, j | 0 <= i < j < |rest| ensures rest[i] != rest[j] {
          assert rest[i] == fields[i + 1] && rest[j] == fields[j + 1];
        }
      }
      d, tag := FieldsFill(s', c, rest);
      assert FieldsOf(c, fields) == first + FieldsOf(c, rest);
      FeedAppend(Running(s), first, FieldsOf(c, rest));
      assert forall f :: FieldOf(d, f) == if f in fields then FieldOf(c, f) else FieldOf(d0, f) by {
        forall f ensures FieldOf(d, f) == if f in fields then FieldOf(c, f) else FieldOf(d0, f) {
          assert f in fields <==> f == f0 || f in rest;
        }
      }
    }
  }

  lemma {:induction false} AllFieldsDistinct()
    ensures forall i, j :: 0 <= i < j < |AllFields| ==> AllFields[i] != AllFields[j]
  {
  }

  lemma {:induction false} EveryFieldListed(f: FieldName)
    ensures f in AllFields
  {
    match f
    case CustomerID => assert AllFields[0] == f;
    case CompanyName => assert AllFields[1] == f;
    case ContactName => assert AllFields[2] == f;
    case ContactTitle => assert AllFields[3] == f;
    case Address => assert AllFields[4] == f;
    case City => assert AllFields[5] == f;
    case Country => assert AllFields[6] == f;
    case PostalCode => assert AllFields[7] == f;
    case Phone => assert AllFields[8] == f;
    case Email => assert AllFields[9] == f;
    case Fax => assert AllFields[10] == f;
  }

  /** The eleven field elements of an exportable contact fill a fresh draft with exactly that contact. */
  lemma {:induction false} FieldsFillDraft(draftOpen: Scan, c: Contact) returns (tag: string)
    requires Exportable(c) && draftOpen.current == Some(EmptyDraft)
    ensures Feed(Running(draftOpen), FieldsOf(c, AllFields)) == Running(draftOpen.(current := Some(c), tag := tag))
  {
    assert forall i, j :: 0 <= i < j < |AllFields| ==> AllFields[i] != AllFields[j] by {
      AllFieldsDistinct();
    }
    assert forall f :: f in AllFields ==> FieldOf(EmptyDraft, f) == "" by {
      forall f | f in AllFields ensures FieldOf(EmptyDraft, f) == "" {
      }
    }
    var filled;
    filled, tag := FieldsFill(draftOpen, c, AllFields);
    assert filled == c by {
      forall f ensures FieldOf(filled, f) == FieldOf(c, f) {
        EveryFieldListed(f);
      }
      FieldsDetermine(filled, c);
    }
  }

  /** A `<Contact>` start tag and the contact's field elements leave exactly that contact as the open draft. */
  lemma {:induction false} RecordBodyFills(s: Scan, c: Contact) returns (tag: string)
    requires Exportable(c)
    ensures Feed(Running(s), [StartTag("Contact")] + FieldsOf(c, AllFields))
         == Running(Scan(s.contacts, Some(c), tag, s.hasValidStructure))
  {
    var draftOpen := Scan(s.contacts, Some(EmptyDraft), "Contact", s.hasValidStructure);
    assert Feed(Running(s), [StartTag("Contact")]) == Running(draftOpen);
    FeedAppend(Running(s), [StartTag("Contact")], FieldsOf(c, AllFields));
    tag := FieldsFillDraft(draftOpen, c);
  }

  /** The `</Contact>` end tag accepts the open draft if it is valid, then closes it. */
  lemma {:induction false} RecordCloses(s: Scan, c: Contact, tag: string)
    ensures Feed(Running(Scan(s.contacts, Some(c), tag, s.hasValidStructure)), [EndTag("Contact")])
         == Running(Scan(s.contacts + (if IsValid(c) then [c] else []), None, "", s.hasValidStructure))
  {
    var filled := Scan(s.contacts, Some(c), tag, s.hasValidStructure);
    assert [EndTag("Contact")][1..] == [];
    assert Feed(Running(filled), [EndTag("Contact")]) == Feed(Running(Step(filled, EndTag("Contact"))), []);
  }

  /** One `<Contact>` element adds the contact it describes when that contact is valid, and nothing otherwise. */
  lemma {:induction false} RecordRoundTrip(s: Scan, c: Contact)
    requires Exportable(c)
    ensures Feed(Running(s), Record(c))
         == Running(Scan(s.contacts + (if IsValid(c) then [c] else []), None, "", s.hasValidStructure))
  {
    var header := [StartTag("Contact")] + FieldsOf(c, AllFields);
    assert Record(c) == header + [EndTag("Contact")];
    FeedAppend(Running(s), header, [EndTag("Contact")]);
    var tag := RecordBodyFills(s, c);
    RecordCloses(s, c, tag);
  }

  /** Filtering a non-empty list onto a prefix: the head's contribution, then the tail's. */
  lemma ValidOnlyCons(prefix: seq<Contact>, cs: seq<Contact>)
    requires cs != []
    ensures (prefix + (if IsValid(cs[0]) then [cs[0]] else [])) + ValidOnly(cs[1..]) == prefix + ValidOnly(cs)
  {
    var kept := if IsValid(cs[0]) then [cs[0]] else [];
    assert ValidOnly(cs) == kept + ValidOnly(cs[1..]);
    assert (prefix + kept) + ValidOnly(cs[1..]) == prefix + (kept + ValidOnly(cs[1..]));
  }

  lemma {:induction false} RecordsRoundTrip(s: Scan, cs: seq<Contact>)
    requires s.current.None? && s.hasValidStructure
    requires forall c :: c in cs ==> Exportable(c)
    ensures Feed(Running(s), Records(cs))
         == Running(Scan(s.contacts + ValidOnly(cs), None, if cs == [] then s.tag else "", true))
    decreases |cs|
  {
    if cs == [] {
      assert s.contacts + [] == s.contacts;
    } else {
      var head, rest := cs[0], cs[1..];
      var kept := if IsValid(head) then [head] else [];
      var s' := Scan(s.contacts + kept, None, "", true);
      assert Feed(Running(s), Record(head)) == Running(s') by {
        RecordRoundTrip(s, head);
      }
      assert Feed(Running(s'), Records(rest)) == Running(Scan(s'.contacts + ValidOnly(rest), None, "", true)) by {
        assert forall c :: c in rest ==> Exportable(c) by {
          forall c | c in rest ensures Exportable(c) { assert c in cs; }
        }
        RecordsRoundTrip(s', rest);
      }
      assert Feed(Running(s), Records(cs)) == Feed(Running(s'), Records(rest)) by {
        assert Records(cs) == Record(head) + Records(rest);
        FeedAppend(Running(s), Record(head), Records(rest));
      }
      ValidOnlyCons(s.contacts, cs);
    }
  }

  /**
   * Importing a well-formed address book gives back its valid records, in document order and
   * counted; records without a name or an email are dropped, and with none left the result is
   * `EmptyFile`.
   */
  lemma {:induction false} ImportRoundTrip(content: string, cs: seq<Contact>)
    requires !IsBlank(content)
    requires forall c :: c in cs ==> Exportable(c)
    ensures ImportSpec(content, Document(cs))
         == if ValidOnly(cs) == [] then EmptyFile else Success(|ValidOnly(cs)|, ValidOnly(cs))
  {
    var root := Scan([], None, "AddressBook", true);
    RecordsRoundTrip(root, cs);
    DocumentFeeds(cs);
    var last := Scan(ValidOnly(cs), None, if cs == [] then "AddressBook" else "", true);
    assert Feed(Running(last), [EndTag("AddressBook")]).scan.contacts == ValidOnly(cs);
    ClassifyRunning(content, Document(cs), Feed(Running(Start), Document(cs)).scan);
  }

  /** A document is its start tag, its records from the opened root, then the closing tag. */
  lemma DocumentFeeds(cs: seq<Contact>)
    ensures Feed(Running(Start), Document(cs))
         == Feed(Feed(Running(Scan([], None, "AddressBook", true)), Records(cs)), [EndTag("AddressBook")])
  {
    var root := Scan([], None, "AddressBook", true);
    assert Document(cs) == [StartTag("AddressBook")] + (Records(cs) + [EndTag("AddressBook")]);
    FeedAppend(Running(Start), [StartTag("AddressBook")], Records(cs) + [EndTag("AddressBook")]);
    assert Feed(Running(Start), [StartTag("AddressBook")]) == Running(root);
    FeedAppend(Running(root), Records(cs), [EndTag("AddressBook")]);
  }

  /** A run that ends still going with a valid structure is classified by its records alone. */
  lemma ClassifyRunning(content: string, events: seq<XmlEvent>, s: Scan)
    requires !IsBlank(content) && Feed(Running(Start), events) == Running(s) && s.hasValidStructure
    ensures ImportSpec(content, events) == if s.contacts == [] then EmptyFile else Success(|s.contacts|, s.contacts)
  {
  }
}
