/**
 * The create path: a contact saved without an id becomes a new persona. The
 * engine turns the contact into a hash of persona details
 * (personaDetailsHashFromQContact) and hands it to the aggregator; the
 * completions of that call and of the remove-individual call turn Folks
 * errors into QContactManager errors and finish the request.
 */
module CreatePath {
  import opened Common
  import opened FieldTranslator
  import opened Contacts
  import opened Folks
  import opened Projector
  import opened WriteBack

  // ---------------------------------------------------------------- the detail hash

  /** The FOLKS_PERSONA_DETAIL_* keys the hash can hold. */
  datatype PersonaDetail =
    | PostalAddressesKey | AvatarKey | BirthdayKey | EmailAddressesKey | IsFavouriteKey | GenderKey
    | StructuredNameKey | FullNameKey | AliasKey | NotesKey | ImAddressesKey | RolesKey | PhoneNumbersKey | UrlsKey

  /** The GValue stored under a key. */
  datatype DetailValue =
    | AddressesValue(addresses: set<PostalAddressFieldDetails>)
    | IconValue(uri: string)
    | DateTimeValue(unixSeconds: Option<int>)
    | FieldDetailsValue(details: set<FieldDetails>)
    | BooleanValue(b: bool)
    | GenderEnumValue(gender: FolksGender)
    | StructuredNameValue(name: StructuredName)
    | StringValue(s: string)
    | ImAddressesValue(providerUids: set<(string, FieldDetails)>)
    | RolesValue(roles: set<Role>)

  /**
   * One entry of the provider-uid multimap: the protocol's tag (a null string,
   * written "", for a protocol the translator does not name) and the URI as
   * IM field details without parameters.
   */
  function ImPayload(d: Detail): (string, FieldDetails)
  {
    (ProtocolFromEnum(AccountProtocol(d)).GetOr(""), FieldDetails(StringField(d, AccountUri), []))
  }

  /** folks_role_new(title, name, NULL): no uid and no role name. */
  function HashRole(d: Detail): Role
  {
    Role(StringField(d, Title), StringField(d, OrgName), "", "")
  }

  /** The detail type a key is built from. */
  function KeyKind(k: PersonaDetail): DetailKind
  {
    match k
    case PostalAddressesKey => Address
    case AvatarKey => Avatar
    case BirthdayKey => Birthday
    case EmailAddressesKey => EmailAddress
    case IsFavouriteKey => Favorite
    case GenderKey => Gender
    case StructuredNameKey => Name
    case FullNameKey => DisplayLabel
    case AliasKey => DisplayLabel
    case NotesKey => Note
    case ImAddressesKey => OnlineAccount
    case RolesKey => Organization
    case PhoneNumbersKey => PhoneNumber
    case UrlsKey => Url
  }

  /** A list-valued key: present with at least one detail of its type, even an empty one, holding what the non-empty ones make. */
  function ListEntry<T(==)>(ds: seq<Detail>, make: set<T> -> DetailValue, payload: Detail -> T): Option<DetailValue>
  {
    if ds != [] then Some(make(Collected(ds, Kept, payload))) else None
  }

  function AddressesIn(s: set<PostalAddressFieldDetails>): DetailValue { AddressesValue(s) }
  function FieldDetailsIn(s: set<FieldDetails>): DetailValue { FieldDetailsValue(s) }
  function RolesIn(s: set<Role>): DetailValue { RolesValue(s) }

  /** The avatar goes in when the first avatar detail has a non-empty image URL. */
  function AvatarEntry(c: Contact): Option<DetailValue>
  {
    var icon := AvatarIconOf(FirstOf(c, Avatar));
    if icon.Some? then Some(IconValue(icon.value)) else None
  }

  /** A single-valued key: present when the first detail of its type is not empty. */
  function SingleEntry(d: Detail, value: DetailValue): Option<DetailValue>
  {
    if !IsEmptyDetail(d) then Some(value) else None
  }

  function StructuredNameEntry(c: Contact): Option<DetailValue>
  {
    var n := FirstOf(c, Name);
    SingleEntry(n, StructuredNameValue(StructuredName(StringField(n, LastName), StringField(n, FirstName),
                                                      StringField(n, MiddleName), StringField(n, Prefix), StringField(n, Suffix))))
  }

  /** Both names: present for a non-empty display label, holding it. */
  function LabelEntry(c: Contact): Option<DetailValue>
  {
    if LabelOf(c) != "" then Some(StringValue(LabelOf(c))) else None
  }

  /** The IM addresses: present when some account is not empty. */
  function ImAddressesEntry(c: Contact): Option<DetailValue>
  {
    var providerUids := Collected(DetailsOf(c, OnlineAccount), Kept, ImPayload);
    if providerUids != {} then Some(ImAddressesValue(providerUids)) else None
  }

  /** What the source inserts under a key, if anything. */
  function Entry(c: Contact, k: PersonaDetail): Option<DetailValue>
  {
    match k
    case PostalAddressesKey => ListEntry(DetailsOf(c, Address), AddressesIn, AddressPayload)
    case AvatarKey => AvatarEntry(c)
    case BirthdayKey => SingleEntry(FirstOf(c, Birthday), DateTimeValue(BirthdaySeconds(FirstOf(c, Birthday))))
    case EmailAddressesKey => ListEntry(DetailsOf(c, EmailAddress), FieldDetailsIn, EmailPayload)
    case IsFavouriteKey => SingleEntry(FirstOf(c, Favorite), BooleanValue(FavouriteOf(FirstOf(c, Favorite))))
    case GenderKey => SingleEntry(FirstOf(c, Gender), GenderEnumValue(GenderOf(FirstOf(c, Gender))))
    case StructuredNameKey => StructuredNameEntry(c)
    case FullNameKey => LabelEntry(c)
    case AliasKey => LabelEntry(c)
    case NotesKey => ListEntry(DetailsOf(c, Note), FieldDetailsIn, NotePayload)
    case ImAddressesKey => ImAddressesEntry(c)
    case RolesKey => ListEntry(DetailsOf(c, Organization), RolesIn, HashRole)
    case PhoneNumbersKey => ListEntry(DetailsOf(c, PhoneNumber), FieldDetailsIn, PhonePayload)
    case UrlsKey => ListEntry(DetailsOf(c, Url), FieldDetailsIn, UrlPayload)
  }

  /** The hash a new persona is made from: an entry for each key the contact gives one. */
  function PersonaDetailsHash(c: Contact): map<PersonaDetail, DetailValue>
  {
    map k: PersonaDetail | Entry(c, k).Some? :: Entry(c, k).value
  }

  /** One guarded insertion. */
  function Put(details: map<PersonaDetail, DetailValue>, k: PersonaDetail, e: Option<DetailValue>): map<PersonaDetail, DetailValue>
  {
    if e.Some? then details[k := e.value] else details
  }

  /** The insertions of personaDetailsHashFromQContact up to the structured name, of the entries `e` gives. */
  function EarlyInsertions(e: PersonaDetail -> Option<DetailValue>): map<PersonaDetail, DetailValue>
  {
    Put(Put(Put(Put(Put(Put(Put(map[],
      PostalAddressesKey, e(PostalAddressesKey)), AvatarKey, e(AvatarKey)), BirthdayKey, e(BirthdayKey)),
      EmailAddressesKey, e(EmailAddressesKey)), IsFavouriteKey, e(IsFavouriteKey)),
      GenderKey, e(GenderKey)), StructuredNameKey, e(StructuredNameKey))
  }

  /** The insertions from the full name on, in the order the source makes them, into `m`. */
  function LateInsertions(m: map<PersonaDetail, DetailValue>, e: PersonaDetail -> Option<DetailValue>): map<PersonaDetail, DetailValue>
  {
    Put(Put(Put(Put(Put(Put(Put(m,
      FullNameKey, e(FullNameKey)), AliasKey, e(AliasKey)), NotesKey, e(NotesKey)),
      ImAddressesKey, e(ImAddressesKey)), RolesKey, e(RolesKey)),
      PhoneNumbersKey, e(PhoneNumbersKey)), UrlsKey, e(UrlsKey))
  }

  /** The keys taken before the display label. */
  predicate Early(k: PersonaDetail)
  {
    k.PostalAddressesKey? || k.AvatarKey? || k.BirthdayKey? || k.EmailAddressesKey? || k.IsFavouriteKey? ||
    k.GenderKey? || k.StructuredNameKey?
  }

  lemma PutMeaning(m: map<PersonaDetail, DetailValue>, j: PersonaDetail, x: Option<DetailValue>, k: PersonaDetail)
    ensures (k in Put(m, j, x)) == (k in m || (k == j && x.Some?))
    ensures k in Put(m, j, x) ==> Put(m, j, x)[k] == if k == j && x.Some? then x.value else m[k]
  { }

  lemma EarlyInsertionsMeaning(e: PersonaDetail -> Option<DetailValue>, k: PersonaDetail)
    ensures k in EarlyInsertions(e) <==> Early(k) && e(k).Some?
    ensures k in EarlyInsertions(e) ==> EarlyInsertions(e)[k] == e(k).value
  {
    var m1 := Put(map[], PostalAddressesKey, e(PostalAddressesKey));
    var m2 := Put(m1, AvatarKey, e(AvatarKey));
    var m3 := Put(m2, BirthdayKey, e(BirthdayKey));
    var m4 := Put(m3, EmailAddressesKey, e(EmailAddressesKey));
    var m5 := Put(m4, IsFavouriteKey, e(IsFavouriteKey));
    var m6 := Put(m5, GenderKey, e(GenderKey));
    PutMeaning(map[], PostalAddressesKey, e(PostalAddressesKey), k);
    PutMeaning(m1, AvatarKey, e(AvatarKey), k);
    PutMeaning(m2, BirthdayKey, e(BirthdayKey), k);
    PutMeaning(m3, EmailAddressesKey, e(EmailAddressesKey), k);
    PutMeaning(m4, IsFavouriteKey, e(IsFavouriteKey), k);
    PutMeaning(m5, GenderKey, e(GenderKey), k);
    PutMeaning(m6, StructuredNameKey, e(StructuredNameKey), k);
  }

  lemma LateInsertionsMeaning(m: map<PersonaDetail, DetailValue>, e: PersonaDetail -> Option<DetailValue>, k: PersonaDetail)
    requires forall j :: j in m ==> Early(j)
    ensures k in LateInsertions(m, e) <==> if Early(k) then k in m else e(k).Some?
    ensures k in LateInsertions(m, e) ==> LateInsertions(m, e)[k] == if Early(k) then m[k] else e(k).value
  {
    var m1 := Put(m, FullNameKey, e(FullNameKey));
    var m2 := Put(m1, AliasKey, e(AliasKey));
    var m3 := Put(m2, NotesKey, e(NotesKey));
    var m4 := Put(m3, ImAddressesKey, e(ImAddressesKey));
    var m5 := Put(m4, RolesKey, e(RolesKey));
    var m6 := Put(m5, PhoneNumbersKey, e(PhoneNumbersKey));
    PutMeaning(m, FullNameKey, e(FullNameKey), k);
    PutMeaning(m1, AliasKey, e(AliasKey), k);
    PutMeaning(m2, NotesKey, e(NotesKey), k);
    PutMeaning(m3, ImAddressesKey, e(ImAddressesKey), k);
    PutMeaning(m4, RolesKey, e(RolesKey), k);
    PutMeaning(m5, PhoneNumbersKey, e(PhoneNumbersKey), k);
    PutMeaning(m6, UrlsKey, e(UrlsKey), k);
  }

  /** Each key is inserted once, so the insertions hold every given entry whatever their order. */
  lemma InsertionsMakeHash(e: PersonaDetail -> Option<DetailValue>)
    ensures LateInsertions(EarlyInsertions(e), e) == map k: PersonaDetail | e(k).Some? :: e(k).value
  {
    forall k
      ensures k in LateInsertions(EarlyInsertions(e), e) <==> e(k).Some?
      ensures k in LateInsertions(EarlyInsertions(e), e) ==> LateInsertions(EarlyInsertions(e), e)[k] == e(k).value
    {
      forall j | j in EarlyInsertions(e)
        ensures Early(j)
      {
        EarlyInsertionsMeaning(e, j);
      }
      EarlyInsertionsMeaning(e, k);
      LateInsertionsMeaning(EarlyInsertions(e), e, k);
    }
  }

  /** personaDetailsHashFromQContact: the guarded insertions, in the order the source takes the keys. */
  method PersonaDetailsHashFromContact(contact: Contact) returns (details: map<PersonaDetail, DetailValue>)
    ensures details == PersonaDetailsHash(contact)
  {
    details := InsertEarly(contact);
    details := InsertLate(details, contact);
    InsertionsMakeHash(k => Entry(contact, k));
  }

  /** The insertions before the display label, into an empty hash. */
  method InsertEarly(contact: Contact) returns (details: map<PersonaDetail, DetailValue>)
    ensures details == EarlyInsertions(k => Entry(contact, k))
  {
    details := map[];
    details := InsertAddresses(details, contact);
    details := InsertAvatar(details, contact);
    details := InsertBirthday(details, contact);
    details := InsertStringFieldDetails(details, contact, EmailAddressesKey);
    details := InsertFavourite(details, contact);
    details := InsertGender(details, contact);
    details := InsertStructuredName(details, contact);
  }

  /** The insertions from the full name on. */
  method InsertLate(early: map<PersonaDetail, DetailValue>, contact: Contact) returns (details: map<PersonaDetail, DetailValue>)
    ensures details == LateInsertions(early, k => Entry(contact, k))
  {
    details := InsertNames(early, contact);
    details := InsertStringFieldDetails(details, contact, NotesKey);
    details := InsertImAddresses(details, contact);
    details := InsertRoles(details, contact);
    details := InsertPhoneNumbers(details, contact);
    details := InsertStringFieldDetails(details, contact, UrlsKey);
  }

  method InsertAddresses(details: map<PersonaDetail, DetailValue>, contact: Contact) returns (d: map<PersonaDetail, DetailValue>)
    ensures d == Put(details, PostalAddressesKey, Entry(contact, PostalAddressesKey))
  {
    d := details;
    var addresses := DetailsOf(contact, Address);
    if |addresses| > 0 {
      var value := CollectEach(addresses, Kept, AddressPayload);
      d := d[PostalAddressesKey := AddressesValue(value)];
    }
  }

  method InsertAvatar(details: map<PersonaDetail, DetailValue>, contact: Contact) returns (d: map<PersonaDetail, DetailValue>)
    ensures d == Put(details, AvatarKey, Entry(contact, AvatarKey))
  {
    d := details;
    var avatar := FirstOf(contact, Avatar);
    if !IsEmptyDetail(avatar) {
      var icon := AvatarIconOf(avatar);
      if icon.Some? {
        d := d[AvatarKey := IconValue(icon.value)];
      }
    }
  }

  method InsertBirthday(details: map<PersonaDetail, DetailValue>, contact: Contact) returns (d: map<PersonaDetail, DetailValue>)
    ensures d == Put(details, BirthdayKey, Entry(contact, BirthdayKey))
  {
    d := details;
    var birthday := FirstOf(contact, Birthday);
    if !IsEmptyDetail(birthday) {
      d := d[BirthdayKey := DateTimeValue(BirthdaySeconds(birthday))];
    }
  }

  /** PERSONA_DETAILS_INSERT_STRING_FIELD_DETAILS, for the e-mail addresses, the notes and the URLs. */
  method InsertStringFieldDetails(details: map<PersonaDetail, DetailValue>, contact: Contact, key: PersonaDetail)
    returns (d: map<PersonaDetail, DetailValue>)
    requires key == EmailAddressesKey || key == NotesKey || key == UrlsKey
    ensures d == Put(details, key, Entry(contact, key))
  {
    d := details;
    var kind := KeyKind(key);
    var contactDetails := DetailsOf(contact, kind);
    if |contactDetails| > 0 {
      var value;
      if key == EmailAddressesKey {
        value := CollectEach(contactDetails, Kept, EmailPayload);
      } else if key == NotesKey {
        value := CollectEach(contactDetails, Kept, NotePayload);
      } else {
        value := CollectEach(contactDetails, Kept, UrlPayload);
      }
      d := d[key := FieldDetailsValue(value)];
    }
  }

  method InsertFavourite(details: map<PersonaDetail, DetailValue>, contact: Contact) returns (d: map<PersonaDetail, DetailValue>)
    ensures d == Put(details, IsFavouriteKey, Entry(contact, IsFavouriteKey))
  {
    d := details;
    var favorite := FirstOf(contact, Favorite);
    if !IsEmptyDetail(favorite) {
      d := d[IsFavouriteKey := BooleanValue(FavouriteOf(favorite))];
    }
  }

  method InsertGender(details: map<PersonaDetail, DetailValue>, contact: Contact) returns (d: map<PersonaDetail, DetailValue>)
    ensures d == Put(details, GenderKey, Entry(contact, GenderKey))
  {
    d := details;
    var gender := FirstOf(contact, Gender);
    if !IsEmptyDetail(gender) {
      var genderEnum := FolksUnspecified;
      if GenderField in gender.fields && gender.fields[GenderField] == GenderValue(GenderMale) {
        genderEnum := FolksMale;
      } else if GenderField in gender.fields && gender.fields[GenderField] == GenderValue(GenderFemale) {
        genderEnum := FolksFemale;
      }
      d := d[GenderKey := GenderEnumValue(genderEnum)];
    }
  }

  method InsertStructuredName(details: map<PersonaDetail, DetailValue>, contact: Contact) returns (d: map<PersonaDetail, DetailValue>)
    ensures d == Put(details, StructuredNameKey, Entry(contact, StructuredNameKey))
  {
    d := details;
    var name := FirstOf(contact, Name);
    if !IsEmptyDetail(name) {
      var sn := StructuredName(StringField(name, LastName), StringField(name, FirstName), StringField(name, MiddleName),
                               StringField(name, Prefix), StringField(name, Suffix));
      d := d[StructuredNameKey := StructuredNameValue(sn)];
    }
  }

  /** The display label goes in twice, as the full name and as the alias. */
  method InsertNames(details: map<PersonaDetail, DetailValue>, contact: Contact) returns (d: map<PersonaDetail, DetailValue>)
    ensures d == Put(Put(details, FullNameKey, Entry(contact, FullNameKey)), AliasKey, Entry(contact, AliasKey))
  {
    d := details;
    var text := LabelOf(contact);
    if text != "" {
      d := d[FullNameKey := StringValue(text)];
      d := d[AliasKey := StringValue(text)];
    }
  }

  /** The provider-uid multimap goes in only when some account was added to it. */
  method InsertImAddresses(details: map<PersonaDetail, DetailValue>, contact: Contact) returns (d: map<PersonaDetail, DetailValue>)
    ensures d == Put(details, ImAddressesKey, Entry(contact, ImAddressesKey))
  {
    d := details;
    var accounts := DetailsOf(contact, OnlineAccount);
    if |accounts| > 0 {
      var providerUids := CollectEach(accounts, Kept, ImPayload);
      if providerUids != {} {
        d := d[ImAddressesKey := ImAddressesValue(providerUids)];
      }
    }
  }

  method InsertRoles(details: map<PersonaDetail, DetailValue>, contact: Contact) returns (d: map<PersonaDetail, DetailValue>)
    ensures d == Put(details, RolesKey, Entry(contact, RolesKey))
  {
    d := details;
    var orgs := DetailsOf(contact, Organization);
    if |orgs| > 0 {
      var roles := CollectEach(orgs, Kept, HashRole);
      d := d[RolesKey := RolesValue(roles)];
    }
  }

  method InsertPhoneNumbers(details: map<PersonaDetail, DetailValue>, contact: Contact) returns (d: map<PersonaDetail, DetailValue>)
    ensures d == Put(details, PhoneNumbersKey, Entry(contact, PhoneNumbersKey))
  {
    d := details;
    var phones := DetailsOf(contact, PhoneNumber);
    if |phones| > 0 {
      var value := CollectEach(phones, Kept, PhonePayload);
      d := d[PhoneNumbersKey := FieldDetailsValue(value)];
    }
  }

  // ---------------------------------------------------------------- what the hash holds

  /** The hash holds exactly the keys the contact gives an entry, each with that entry's value. */
  lemma HashMeaning(c: Contact, k: PersonaDetail)
    ensures k in PersonaDetailsHash(c) <==> Entry(c, k).Some?
    ensures k in PersonaDetailsHash(c) ==> PersonaDetailsHash(c)[k] == Entry(c, k).value
  { }

  /** The full name and the alias go in together, both holding the display label, and only for a non-empty label. */
  lemma LabelGivesBothNames(c: Contact)
    ensures FullNameKey in PersonaDetailsHash(c) <==> LabelOf(c) != ""
    ensures AliasKey in PersonaDetailsHash(c) <==> LabelOf(c) != ""
    ensures LabelOf(c) != "" ==>
      PersonaDetailsHash(c)[FullNameKey] == PersonaDetailsHash(c)[AliasKey] == StringValue(LabelOf(c))
  { }

  /** Every key comes from some detail of its type in the contact. */
  lemma KeysComeFromDetails(c: Contact, k: PersonaDetail)
    requires k in PersonaDetailsHash(c)
    ensures exists i :: 0 <= i < |c.details| && c.details[i].kind == KeyKind(k)
  {
    var ds := DetailsOf(c, KeyKind(k));
    if ds == [] {
      assert IsEmptyDetail(FirstOf(c, KeyKind(k)));
      assert Collected(ds, Kept, ImPayload) == {};
      assert false;
    }
    assert ds[0] in c.details;
  }

  /** A contact with none of the detail types the hash reads gives an empty hash. */
  lemma NothingToCreate(c: Contact)
    requires forall i :: 0 <= i < |c.details| ==> c.details[i].kind == TypeDetail
    ensures PersonaDetailsHash(c) == map[]
  {
    forall k | k in PersonaDetailsHash(c)
      ensures false
    {
      KeysComeFromDetails(c, k);
    }
  }

  /** Each entry of the IM addresses comes from a non-empty account, whatever its protocol. */
  lemma ImAddressesMeaning(c: Contact, entry: (string, FieldDetails))
    requires ImAddressesKey in PersonaDetailsHash(c)
    ensures PersonaDetailsHash(c)[ImAddressesKey].ImAddressesValue?
    ensures entry in PersonaDetailsHash(c)[ImAddressesKey].providerUids <==>
      exists i :: 0 <= i < |DetailsOf(c, OnlineAccount)| && !IsEmptyDetail(DetailsOf(c, OnlineAccount)[i]) &&
                  ImPayload(DetailsOf(c, OnlineAccount)[i]) == entry
  {
    CollectedMeaning(DetailsOf(c, OnlineAccount), Kept, ImPayload, entry);
  }

  /** The notes entry of a contact whose notes were projected from Folks notes. */
  lemma {:induction false} NotesEntry(c: Contact, notes: seq<FieldDetails>)
    requires DetailsOf(c, Note) == Map(NoteDetail, notes)
    ensures Entry(c, NotesKey) ==
      if notes == [] then None else Some(FieldDetailsValue(Collected(Map(NoteDetail, notes), Kept, NotePayload)))
  {
    NotesEntryOf(c);
    assert |DetailsOf(c, Note)| == |notes|;
  }

  /** The notes entry: the set of notes collected from the note details, when there are any. */
  lemma NotesEntryOf(c: Contact)
    ensures Entry(c, NotesKey) == ListEntry(DetailsOf(c, Note), FieldDetailsIn, NotePayload)
  {
  }

  /** A contact whose notes were projected from Folks notes gives back the same set. */
  lemma {:induction false} NotesRecreated(c: Contact, notes: seq<FieldDetails>)
    requires DetailsOf(c, Note) == Map(NoteDetail, notes)
    requires forall i :: 0 <= i < |notes| ==> ContextParameters(notes[i].parameters)
    ensures NotesKey in PersonaDetailsHash(c) <==> notes != []
    ensures NotesKey in PersonaDetailsHash(c) ==> PersonaDetailsHash(c)[NotesKey] == FieldDetailsValue(set fd | fd in notes)
  {
    HashMeaning(c, NotesKey);
    NotesEntry(c, notes);
    NotesGroupWrittenBack(notes);
  }

  /** An individual's notes, projected into a new contact and saved as a new contact, make up the same set. */
  lemma MaterializedNotesRecreated(managerUri: string, hash: uint32, individual: Individual)
    requires forall i :: 0 <= i < |individual.notes| ==> ContextParameters(individual.notes[i].parameters)
    ensures var h := PersonaDetailsHash(Materialized(managerUri, hash, individual));
      && (NotesKey in h <==> individual.notes != [])
      && (NotesKey in h ==> h[NotesKey] == FieldDetailsValue(set fd | fd in individual.notes))
  {
    MaterializedNotes(managerUri, hash, individual);
    NotesRecreated(Materialized(managerUri, hash, individual), individual.notes);
  }

  /** A projected contact's notes are the individual's notes, one detail each. */
  lemma MaterializedNotes(managerUri: string, hash: uint32, individual: Individual)
    ensures DetailsOf(Materialized(managerUri, hash, individual), Note) == Map(NoteDetail, individual.notes)
  {
    NotesAfterApplyAll(10);
    MaterializedGroup(managerUri, hash, individual, 10);
    NotesGroupIs(Materialized(managerUri, hash, individual), individual);
  }

  /** The notes update is the eleventh of the add order and does not set the label. */
  lemma NotesAfterApplyAll(i: nat)
    requires i == 10
    ensures i < |AddOrder| && AddOrder[i] == NotesChanged && !SetsLabel(AddOrder[i])
  {
  }

  /** A contact whose notes-update group is the individual's holds the individual's notes. */
  lemma NotesGroupIs(m: Contact, individual: Individual)
    requires DetailsOf(m, GroupKind(AddOrder[10])) == Group(AddOrder[10], individual)
    ensures DetailsOf(m, Note) == Map(NoteDetail, individual.notes)
  {
    NotesAfterApplyAll(10);
  }

  /** A projected contact saved as a new contact names the persona by the individual's full name. */
  lemma MaterializedNamesRecreated(managerUri: string, hash: uint32, individual: Individual)
    requires individual.fullName.Some? && individual.fullName.value != ""
    ensures var h := PersonaDetailsHash(Materialized(managerUri, hash, individual));
      && FullNameKey in h && AliasKey in h
      && h[FullNameKey] == h[AliasKey] == StringValue(individual.fullName.value)
  {
    MaterializedLabel(managerUri, hash, individual);
    LabelGivesBothNames(Materialized(managerUri, hash, individual));
  }

  // ---------------------------------------------------------------- errors and completions

  /** FolksIndividualAggregatorError: the codes the engine names, and any other one. */
  datatype AggregatorError = AddFailed | StoreOffline | NoWriteableStore | OtherAggregatorError(code: int)

  /** The QContactManager::Error values the engine reports. */
  datatype ManagerError = NoError | AlreadyExistsError | LockedError | NotSupportedError | BadArgumentError | UnspecifiedError

  /** QContactAbstractRequest::State */
  datatype RequestState = InactiveState | ActiveState | CanceledState | FinishedState

  /** managerErrorFromIndividualAggregatorError: a failure is never reported as success. */
  function ManagerErrorFromAggregatorError(e: AggregatorError): (r: ManagerError)
    ensures r != NoError
    ensures r == UnspecifiedError <==> e.OtherAggregatorError?
  {
    match e
    case AddFailed => BadArgumentError
    case StoreOffline => LockedError
    case NoWriteableStore => NotSupportedError
    case OtherAggregatorError(_) => UnspecifiedError
  }

  /** Different named failures stay apart; every other code reads as unspecified. */
  lemma ErrorsKeptApart(a: AggregatorError, b: AggregatorError)
    requires a != b && !a.OtherAggregatorError? && !b.OtherAggregatorError?
    ensures ManagerErrorFromAggregatorError(a) != ManagerErrorFromAggregatorError(b)
  { }

  /** How add_persona_from_details finished: an error, no persona (it exists already), or a persona in an individual or not yet. */
  datatype AddOutcome =
    | AddError(error: AggregatorError)
    | NoPersonaAdded
    | PersonaAdded(individualId: Option<string>)

  /** What updateContactSaveRequest is given. */
  datatype SaveUpdate = SaveUpdate(contacts: seq<Contact>, error: ManagerError, errorMap: map<int, ManagerError>, state: RequestState)

  /**
   * aggregatorAddPersonaFromDetailsCb: the request finishes with the one
   * contact, its error also recorded at index 0; when the persona joined an
   * individual the contact takes the id addIndividual gives that individual.
   */
  function AddPersonaFinished(managerUri: string, qHash: string -> uint32, outcome: AddOutcome, contact: Contact): (u: SaveUpdate)
    ensures u.state == FinishedState && |u.contacts| == 1 && u.errorMap == map[0 := u.error]
    ensures u.error == NoError <==> outcome.PersonaAdded?
    ensures outcome.NoPersonaAdded? ==> u.error == AlreadyExistsError
    ensures outcome.AddError? ==> u.error == ManagerErrorFromAggregatorError(outcome.error)
    ensures u.contacts[0].details == contact.details && u.contacts[0].collectionId == contact.collectionId
    ensures u.contacts[0].id ==
      if outcome.PersonaAdded? && outcome.individualId.Some?
      then ContactId(managerUri, DbIdToByteArray(qHash(outcome.individualId.value), false))
      else contact.id
  {
    var opError :=
      match outcome
      case AddError(e) => ManagerErrorFromAggregatorError(e)
      case NoPersonaAdded => AlreadyExistsError
      case PersonaAdded(_) => NoError;
    var saved :=
      if outcome.PersonaAdded? && outcome.individualId.Some?
      then contact.(id := ContactId(managerUri, DbIdToByteArray(qHash(outcome.individualId.value), false)))
      else contact;
    SaveUpdate([saved], opError, map[0 := opError], FinishedState)
  }

  /** A created contact carries the id under which addIndividual files the individual it joined. */
  lemma CreatedIdMatchesStoredId(managerUri: string, qHash: string -> uint32, contact: Contact, individual: Individual)
    ensures AddPersonaFinished(managerUri, qHash, PersonaAdded(Some(individual.id)), contact).contacts[0].id ==
            Materialized(managerUri, qHash(individual.id), individual).id
  {
    MaterializedLabel(managerUri, qHash(individual.id), individual);
  }

  /** What updateContactRemoveRequest is given. */
  datatype RemoveUpdate = RemoveUpdate(error: ManagerError, errorMap: map<int, ManagerError>, state: RequestState)

  /** aggregatorRemoveIndividualCb: the request finishes; only a failure is recorded at index 0. */
  function RemoveIndividualFinished(error: Option<AggregatorError>): (u: RemoveUpdate)
    ensures u.state == FinishedState
    ensures error.None? ==> u.error == NoError && u.errorMap == map[]
    ensures error.Some? ==> u.error != NoError && u.errorMap == map[0 := u.error]
  {
    match error
    case None => RemoveUpdate(NoError, map[], FinishedState)
    case Some(e) =>
      var opError := ManagerErrorFromAggregatorError(e);
      RemoveUpdate(opError, map[0 := opError], FinishedState)
  }
}
