/**
 * The QtContacts side of the translation: a QContact is a value holding an id,
 * a collection id and an ordered list of details; a QContactDetail is a typed
 * map from fields to values. Only the detail types and fields the Folks
 * backend reads or writes are named.
 */
module Contacts {
  import opened Common
  import opened FieldTranslator

  /** The detail types the backend handles (QContactDetail::DetailType). */
  datatype DetailKind =
    | TypeDetail | DisplayLabel | Name | Nickname | GlobalPresence | Avatar | Birthday
    | EmailAddress | OnlineAccount | Favorite | Gender | Note | Organization
    | PhoneNumber | Address | Url

  /** The fields the backend reads or writes; `Context` and `SubTypes` are shared by several detail types. */
  datatype Field =
    | Context | SubTypes | ContactTypeField | Label
    | FirstName | LastName | MiddleName | Prefix | Suffix
    | NicknameField | PresenceState | PresenceNickname | CustomMessage
    | ImageUrl | BirthdayField | CalendarId | EmailField | AccountUri | ProtocolField
    | FavoriteField | GenderField | NoteField | OrgName | Title | RoleField
    | NumberField | Country | Locality | PostOfficeBox | Postcode | Region | Street | UrlField

  /** QContactPresence::PresenceState */
  datatype PresenceStateValue =
    | PresenceUnknown | PresenceAvailable | PresenceHidden | PresenceBusy
    | PresenceAway | PresenceExtendedAway | PresenceOffline

  /** QContactGender::GenderField */
  datatype QtGender = GenderUnspecified | GenderMale | GenderFemale

  /** QContactType::TypeValues */
  datatype ContactType = TypeContact | TypeGroup

  /**
   * The QVariant values the backend stores. Each variant is compared
   * structurally; an integer list compares element by element.
   */
  datatype Value =
    | Str(s: string)
    | Ints(ints: seq<int>)
    | Flag(b: bool)
    | Moment(unixSeconds: int)
    | Link(url: string)
    | ProtocolValue(protocol: Protocol)
    | PresenceValue(state: PresenceStateValue)
    | GenderValue(gender: QtGender)
    | ContactTypeValue(contactType: ContactType)

  datatype Detail = Detail(kind: DetailKind, fields: map<Field, Value>)

  /** A QContactId: null, or a manager URI with a local id. Collection ids have the same shape. */
  datatype ContactId = NullId | ContactId(managerUri: string, localId: string)

  datatype Contact = Contact(id: ContactId, collectionId: ContactId, details: seq<Detail>)

  /** The contact-type detail, with type TypeContact. */
  const ContactTypeDetail: Detail := Detail(TypeDetail, map[ContactTypeField := ContactTypeValue(TypeContact)])

  /** A default-constructed QContact: null ids, and the one contact-type detail every QContact starts with. */
  const EmptyContact: Contact := Contact(NullId, NullId, [ContactTypeDetail])

  /** A default-constructed detail of a type: no values at all, so QContactDetail::isEmpty holds. */
  function EmptyDetail(kind: DetailKind): Detail
  {
    Detail(kind, map[])
  }

  predicate IsEmptyDetail(d: Detail)
  {
    d.fields == map[]
  }

  /** QContactDetail::value(field).toString(): the string stored in a field, empty when there is none. */
  function StringField(d: Detail, f: Field): string
  {
    if f in d.fields && d.fields[f].Str? then d.fields[f].s else ""
  }

  /** An integer-list field such as contexts() or subTypes(); empty when absent. */
  function IntsField(d: Detail, f: Field): seq<int>
  {
    if f in d.fields && d.fields[f].Ints? then d.fields[f].ints else []
  }

  /** QContact::details<T>(): the details of one type, in contact order. */
  function OfKind(ds: seq<Detail>, kind: DetailKind): (r: seq<Detail>)
    ensures |r| <= |ds|
    ensures forall i :: 0 <= i < |r| ==> r[i].kind == kind && r[i] in ds
  {
    if ds == [] then [] else (if ds[0].kind == kind then [ds[0]] else []) + OfKind(ds[1..], kind)
  }

  /** The details of all other types, in contact order. */
  function WithoutKind(ds: seq<Detail>, kind: DetailKind): (r: seq<Detail>)
    ensures |r| <= |ds|
    ensures forall i :: 0 <= i < |r| ==> r[i].kind != kind && r[i] in ds
  {
    if ds == [] then [] else (if ds[0].kind != kind then [ds[0]] else []) + WithoutKind(ds[1..], kind)
  }

  function DetailsOf(c: Contact, kind: DetailKind): seq<Detail>
  {
    OfKind(c.details, kind)
  }

  /** QContact::detail<T>(): the first detail of a type, or an empty one when there is none. */
  function FirstOf(c: Contact, kind: DetailKind): (d: Detail)
    ensures d.kind == kind
    ensures DetailsOf(c, kind) == [] ==> IsEmptyDetail(d)
  {
    var ds := DetailsOf(c, kind);
    if ds == [] then EmptyDetail(kind) else ds[0]
  }

  /** A list of details all of one type. */
  predicate AllOfKind(ds: seq<Detail>, kind: DetailKind)
  {
    forall i :: 0 <= i < |ds| ==> ds[i].kind == kind
  }

  /**
   * The contact after every detail of a type has been removed and `added`
   * saved in its place; saveDetail appends a new detail at the end.
   */
  function ReplaceGroup(c: Contact, kind: DetailKind, added: seq<Detail>): Contact
  {
    c.(details := WithoutKind(c.details, kind) + added)
  }

  /** ManagerEngine::removeOldDetails<T>: remove each detail of the type in turn. */
  method RemoveOldDetails(contact: Contact, kind: DetailKind) returns (c: Contact)
    ensures c == contact.(details := WithoutKind(contact.details, kind))
  {
    var kept: seq<Detail> := [];
    var i := 0;
    while i < |contact.details|
      invariant 0 <= i <= |contact.details|
      invariant kept == WithoutKind(contact.details[..i], kind)
    {
      assert contact.details[..i + 1] == contact.details[..i] + [contact.details[i]];
      WithoutKindAppend(contact.details[..i], [contact.details[i]], kind);
      if contact.details[i].kind != kind {
        kept := kept + [contact.details[i]];
      }
      i := i + 1;
    }
    assert contact.details[..i] == contact.details;
    c := contact.(details := kept);
  }

  /**
   * The display-label pattern of the projector: take the existing label
   * detail if there is one, set its label field, save it back in place; with
   * no label detail a new one is appended.
   */
  function SetLabel(c: Contact, text: string): Contact
  {
    var i := FirstIndexOf(c.details, DisplayLabel);
    if i < |c.details| then
      c.(details := c.details[i := c.details[i].(fields := c.details[i].fields[Label := Str(text)])])
    else
      c.(details := c.details + [Detail(DisplayLabel, map[Label := Str(text)])])
  }

  /** The position of the first detail of a type, or the length when there is none. */
  function FirstIndexOf(ds: seq<Detail>, kind: DetailKind): (i: nat)
    ensures i <= |ds|
    ensures i < |ds| ==> ds[i].kind == kind
    ensures forall j :: 0 <= j < i ==> ds[j].kind != kind
  {
    if ds == [] then 0 else if ds[0].kind == kind then 0 else 1 + FirstIndexOf(ds[1..], kind)
  }

  /** The label a contact displays: the label field of its first display-label detail. */
  function LabelOf(c: Contact): string
  {
    StringField(FirstOf(c, DisplayLabel), Label)
  }

  // ---------------------------------------------------------------- filter facts

  lemma {:induction false} OfKindAppend(a: seq<Detail>, b: seq<Detail>, kind: DetailKind)
    ensures OfKind(a + b, kind) == OfKind(a, kind) + OfKind(b, kind)
    decreases |a|
  {
    if a == [] {
      assert a + b == b;
    } else {
      var head := if a[0].kind == kind then [a[0]] else [];
      calc {
        OfKind(a + b, kind);
        { assert (a + b)[0] == a[0] && (a + b)[1..] == a[1..] + b; }
        head + OfKind(a[1..] + b, kind);
        { OfKindAppend(a[1..], b, kind); }
        head + (OfKind(a[1..], kind) + OfKind(b, kind));
        (head + OfKind(a[1..], kind)) + OfKind(b, kind);
      }
    }
  }

  lemma {:induction false} WithoutKindAppend(a: seq<Detail>, b: seq<Detail>, kind: DetailKind)
    ensures WithoutKind(a + b, kind) == WithoutKind(a, kind) + WithoutKind(b, kind)
    decreases |a|
  {
    if a == [] {
      assert a + b == b;
    } else {
      assert (a + b)[1..] == a[1..] + b;
      WithoutKindAppend(a[1..], b, kind);
    }
  }

  /** Removing one type leaves every other type's details exactly as they were, and none of the removed type. */
  lemma {:induction false} OfKindWithout(ds: seq<Detail>, removed: DetailKind, kind: DetailKind)
    ensures OfKind(WithoutKind(ds, removed), kind) == if kind == removed then [] else OfKind(ds, kind)
    decreases |ds|
  {
    if ds != [] {
      OfKindWithout(ds[1..], removed, kind);
      var head := if ds[0].kind != removed then [ds[0]] else [];
      OfKindAppend(head, WithoutKind(ds[1..], removed), kind);
    }
  }

  lemma {:induction false} OfKindAll(ds: seq<Detail>, kind: DetailKind)
    requires AllOfKind(ds, kind)
    ensures OfKind(ds, kind) == ds
    ensures forall other :: other != kind ==> OfKind(ds, other) == []
    decreases |ds|
  {
    if ds != [] {
      OfKindAll(ds[1..], kind);
      assert ds[0].kind == kind && ds == [ds[0]] + ds[1..];
      assert OfKind(ds, kind) == [ds[0]] + OfKind(ds[1..], kind);
      forall other | other != kind
        ensures OfKind(ds, other) == []
      {
        assert OfKind(ds, other) == OfKind(ds[1..], other);
      }
    }
  }

  lemma {:induction false} WithoutKindAll(ds: seq<Detail>, kind: DetailKind)
    requires AllOfKind(ds, kind)
    ensures WithoutKind(ds, kind) == []
    decreases |ds|
  {
    if ds != [] {
      WithoutKindAll(ds[1..], kind);
    }
  }

  lemma {:induction false} WithoutKindTwice(ds: seq<Detail>, kind: DetailKind)
    ensures WithoutKind(WithoutKind(ds, kind), kind) == WithoutKind(ds, kind)
    decreases |ds|
  {
    if ds != [] {
      WithoutKindTwice(ds[1..], kind);
      var head := if ds[0].kind != kind then [ds[0]] else [];
      WithoutKindAppend(head, WithoutKind(ds[1..], kind), kind);
    }
  }

  // ---------------------------------------------------------------- group replacement

  /**
   * After a group replacement the type holds exactly the added details, every
   * other type is untouched, and the ids are unchanged.
   */
  lemma ReplaceGroupContents(c: Contact, kind: DetailKind, added: seq<Detail>)
    requires AllOfKind(added, kind)
    ensures DetailsOf(ReplaceGroup(c, kind, added), kind) == added
    ensures forall other :: other != kind ==> DetailsOf(ReplaceGroup(c, kind, added), other) == DetailsOf(c, other)
    ensures ReplaceGroup(c, kind, added).id == c.id && ReplaceGroup(c, kind, added).collectionId == c.collectionId
  {
    var kept := WithoutKind(c.details, kind);
    OfKindAppend(kept, added, kind);
    OfKindWithout(c.details, kind, kind);
    OfKindAll(added, kind);
    forall other | other != kind
      ensures DetailsOf(ReplaceGroup(c, kind, added), other) == DetailsOf(c, other)
    {
      OfKindAppend(kept, added, other);
      OfKindWithout(c.details, kind, other);
    }
  }

  /** Replacing a group twice with the same details is replacing it once. */
  lemma ReplaceGroupIdempotent(c: Contact, kind: DetailKind, added: seq<Detail>)
    requires AllOfKind(added, kind)
    ensures ReplaceGroup(ReplaceGroup(c, kind, added), kind, added) == ReplaceGroup(c, kind, added)
  {
    var kept := WithoutKind(c.details, kind);
    WithoutKindAppend(kept, added, kind);
    WithoutKindTwice(c.details, kind);
    WithoutKindAll(added, kind);
    assert WithoutKind(kept + added, kind) == kept;
  }

  /** Replacements of two different types commute. */
  lemma ReplaceGroupsCommute(c: Contact, k1: DetailKind, f1: seq<Detail>, k2: DetailKind, f2: seq<Detail>)
    requires k1 != k2 && AllOfKind(f1, k1) && AllOfKind(f2, k2)
    ensures forall k :: DetailsOf(ReplaceGroup(ReplaceGroup(c, k1, f1), k2, f2), k)
                     == DetailsOf(ReplaceGroup(ReplaceGroup(c, k2, f2), k1, f1), k)
  {
    ReplaceGroupContents(c, k1, f1);
    ReplaceGroupContents(c, k2, f2);
    ReplaceGroupContents(ReplaceGroup(c, k1, f1), k2, f2);
    ReplaceGroupContents(ReplaceGroup(c, k2, f2), k1, f1);
  }

  // ---------------------------------------------------------------- the label

  /**
   * Setting the label leaves the contact with at least one label detail whose
   * first carries the new text, keeps the number of label details (or adds
   * the one that was missing), and leaves every other type untouched.
   */
  lemma SetLabelEffect(c: Contact, text: string)
    ensures LabelOf(SetLabel(c, text)) == text
    ensures |DetailsOf(SetLabel(c, text), DisplayLabel)| == if DetailsOf(c, DisplayLabel) == [] then 1 else |DetailsOf(c, DisplayLabel)|
    ensures forall other :: other != DisplayLabel ==> DetailsOf(SetLabel(c, text), other) == DetailsOf(c, other)
    ensures SetLabel(c, text).id == c.id
  {
    var ds := c.details;
    var i := FirstIndexOf(ds, DisplayLabel);
    if i < |ds| {
      var d' := ds[i].(fields := ds[i].fields[Label := Str(text)]);
      var ds' := ds[i := d'];
      assert ds == ds[..i] + [ds[i]] + ds[i + 1..];
      assert ds' == ds[..i] + [d'] + ds[i + 1..];
      NoneOfKind(ds[..i], DisplayLabel);
      forall k
        ensures OfKind(ds', k) == OfKind(ds[..i], k) + OfKind([d'], k) + OfKind(ds[i + 1..], k)
        ensures OfKind(ds, k) == OfKind(ds[..i], k) + OfKind([ds[i]], k) + OfKind(ds[i + 1..], k)
      {
        OfKindAppend(ds[..i] + [d'], ds[i + 1..], k);
        OfKindAppend(ds[..i], [d'], k);
        OfKindAppend(ds[..i] + [ds[i]], ds[i + 1..], k);
        OfKindAppend(ds[..i], [ds[i]], k);
      }
      assert OfKind([d'], DisplayLabel) == [d'] + OfKind([], DisplayLabel);
    } else {
      var d' := Detail(DisplayLabel, map[Label := Str(text)]);
      NoneOfKind(ds, DisplayLabel);
      forall k
        ensures OfKind(ds + [d'], k) == OfKind(ds, k) + OfKind([d'], k)
      {
        OfKindAppend(ds, [d'], k);
      }
      assert OfKind([d'], DisplayLabel) == [d'] + OfKind([], DisplayLabel);
    }
  }

  lemma {:induction false} NoneOfKind(ds: seq<Detail>, kind: DetailKind)
    requires forall j :: 0 <= j < |ds| ==> ds[j].kind != kind
    ensures OfKind(ds, kind) == []
    decreases |ds|
  {
    if ds != [] {
      NoneOfKind(ds[1..], kind);
    }
  }

  /** Removing a type the details do not contain leaves them as they are. */
  lemma {:induction false} WithoutKindNone(ds: seq<Detail>, kind: DetailKind)
    requires forall j :: 0 <= j < |ds| ==> ds[j].kind != kind
    ensures WithoutKind(ds, kind) == ds
    decreases |ds|
  {
    if ds != [] {
      WithoutKindNone(ds[1..], kind);
      assert [ds[0]] + ds[1..] == ds;
    }
  }

  /** Setting the label brings in no detail of another type. */
  lemma SetLabelKinds(c: Contact, text: string, kind: DetailKind)
    requires kind != DisplayLabel
    requires forall j :: 0 <= j < |c.details| ==> c.details[j].kind != kind
    ensures forall j :: 0 <= j < |SetLabel(c, text).details| ==> SetLabel(c, text).details[j].kind != kind
  {
  }

  /** Setting the same label twice is setting it once. */
  lemma SetLabelIdempotent(c: Contact, text: string)
    ensures SetLabel(SetLabel(c, text), text) == SetLabel(c, text)
  {
    var ds := c.details;
    var i := FirstIndexOf(ds, DisplayLabel);
    if i < |ds| {
      var d' := ds[i].(fields := ds[i].fields[Label := Str(text)]);
      var ds' := ds[i := d'];
      FirstIndexStable(ds, i, d');
      assert d'.fields[Label := Str(text)] == d'.fields;
      assert ds'[i := d'] == ds';
    } else {
      var d' := Detail(DisplayLabel, map[Label := Str(text)]);
      FirstIndexAppended(ds, d');
      assert d'.fields[Label := Str(text)] == d'.fields;
      assert (ds + [d'])[|ds| := d'] == ds + [d'];
    }
  }

  lemma {:induction false} FirstIndexStable(ds: seq<Detail>, i: nat, d: Detail)
    requires i == FirstIndexOf(ds, DisplayLabel) && i < |ds| && d.kind == DisplayLabel
    ensures FirstIndexOf(ds[i := d], DisplayLabel) == i
    decreases |ds|
  {
    if ds[0].kind != DisplayLabel {
      assert ds[i := d][1..] == ds[1..][i - 1 := d];
      FirstIndexStable(ds[1..], i - 1, d);
    }
  }

  lemma {:induction false} FirstIndexAppended(ds: seq<Detail>, d: Detail)
    requires FirstIndexOf(ds, DisplayLabel) == |ds| && d.kind == DisplayLabel
    ensures FirstIndexOf(ds + [d], DisplayLabel) == |ds|
    decreases |ds|
  {
    if ds != [] {
      assert (ds + [d])[1..] == ds[1..] + [d];
      FirstIndexAppended(ds[1..], d);
    }
  }
}
