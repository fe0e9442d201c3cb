/**
 * The write side of the engine (qt-folks/managerengine.cpp): saving an
 * edited QContact runs a chain of fifteen steps, one per detail group. Each
 * step asks the primary persona to change its group when the persona
 * implements the matching interface and checkDetailsChanged finds the group
 * edited; its completion callback, or a direct call when nothing was issued,
 * starts the next step. The last step flushes the store and frees the
 * callback data.
 *
 * The asynchronous chain is modelled as a loop over the steps that records
 * what the engine asks of Folks, in order, as an event trace.
 */
module WriteBack {
  import opened Common
  import opened FieldTranslator
  import opened Contacts
  import opened Folks
  import opened DetailDiff
  import opened Projector

  // ---------------------------------------------------------------- field details written from a detail

  /** setFieldDetailsFromContexts: each tag is added as a value of the "type" parameter, which keeps every value once. */
  function TypeParameters(tags: seq<string>): Parameters
  {
    if tags == [] then [] else [("type", AddNew([], tags))]
  }

  /** Utils::contextsFromEnums of the detail's contexts. */
  function ContextTags(d: Detail): seq<string>
  {
    Map(ContextTag, IntsField(d, Context))
  }

  /** A detail the chain writes: QContactDetail::isEmpty is false. */
  predicate Kept(d: Detail)
  {
    !IsEmptyDetail(d)
  }

  /** A note: its text with its context tags as "type" parameters. */
  function NotePayload(d: Detail): FieldDetails
  {
    FieldDetails(StringField(d, NoteField), TypeParameters(ContextTags(d)))
  }

  /** A URL: its address with its context tags as "type" parameters. */
  function UrlPayload(d: Detail): FieldDetails
  {
    FieldDetails(StringField(d, UrlField), TypeParameters(ContextTags(d)))
  }

  /** An email address: the address with its context tags as "type" parameters. */
  function EmailPayload(d: Detail): FieldDetails
  {
    FieldDetails(StringField(d, EmailField), TypeParameters(ContextTags(d)))
  }

  /** A phone number: its context tags followed by its phone sub-type tags. */
  function PhonePayload(d: Detail): FieldDetails
  {
    FieldDetails(StringField(d, NumberField),
                 TypeParameters(ContextTags(d) + FilterMap(PhoneSubTypeTag, IntsField(d, SubTypes))))
  }

  /** A postal address; the extension, address format and uid are left NULL, written here as "". */
  function AddressPayload(d: Detail): PostalAddressFieldDetails
  {
    PostalAddressFieldDetails(
      PostalAddress(StringField(d, PostOfficeBox), "", StringField(d, Street), StringField(d, Locality),
                    StringField(d, Region), StringField(d, Postcode), StringField(d, Country), "", ""),
      TypeParameters(ContextTags(d) + FilterMap(AddressSubTypeTag, IntsField(d, SubTypes))))
  }

  /** A role: title, organisation name, an empty uid and the role name. */
  function RolePayload(d: Detail): RoleFieldDetails
  {
    RoleFieldDetails(Role(StringField(d, Title), StringField(d, OrgName), "", StringField(d, RoleField)),
                     TypeParameters(ContextTags(d)))
  }

  /** QContactOnlineAccount::protocol(): unknown when the field is missing. */
  function AccountProtocol(d: Detail): Protocol
  {
    if ProtocolField in d.fields && d.fields[ProtocolField].ProtocolValue? then d.fields[ProtocolField].protocol
    else ProtocolUnknown
  }

  /** An account the chain writes: not empty, with a known protocol and a non-empty URI. */
  predicate WritableAccount(d: Detail)
  {
    !IsEmptyDetail(d) && AccountProtocol(d) != ProtocolUnknown && StringField(d, AccountUri) != ""
  }

  /** One multimap entry: the protocol's tag as key, the URI with context and account sub-type tags as value. */
  function AccountPayload(d: Detail): (string, FieldDetails)
  {
    (ProtocolFromEnum(AccountProtocol(d)).GetOr(""),
     FieldDetails(StringField(d, AccountUri),
                  TypeParameters(ContextTags(d) + FilterMap(AccountSubTypeTag, IntsField(d, SubTypes)))))
  }

  /** The Gee set a foreach loop builds: one `make(d)` for each kept detail. */
  function Collected<T(==)>(ds: seq<Detail>, keep: Detail -> bool, make: Detail -> T): set<T>
    decreases |ds|
  {
    if ds == [] then {}
    else Collected(ds[..|ds| - 1], keep, make) + (if keep(ds[|ds| - 1]) then {make(ds[|ds| - 1])} else {})
  }

  /** The loop that fills a Gee set from the details of one type. */
  method CollectEach<T(==)>(ds: seq<Detail>, keep: Detail -> bool, make: Detail -> T) returns (s: set<T>)
    ensures s == Collected(ds, keep, make)
  {
    s := {};
    var i := 0;
    while i < |ds|
      invariant 0 <= i <= |ds|
      invariant s == Collected(ds[..i], keep, make)
    {
      assert ds[..i + 1][..i] == ds[..i];
      if keep(ds[i]) {
        s := s + {make(ds[i])};
      }
      i := i + 1;
    }
    assert ds[..i] == ds;
  }

  /** The set holds exactly what is made from the kept details. */
  lemma {:induction false} CollectedMeaning<T>(ds: seq<Detail>, keep: Detail -> bool, make: Detail -> T, x: T)
    ensures x in Collected(ds, keep, make) <==> exists i :: 0 <= i < |ds| && keep(ds[i]) && make(ds[i]) == x
    decreases |ds|
  {
    if ds != [] {
      var init := ds[..|ds| - 1];
      CollectedMeaning(init, keep, make, x);
      if exists i :: 0 <= i < |init| && keep(init[i]) && make(init[i]) == x {
        var i :| 0 <= i < |init| && keep(init[i]) && make(init[i]) == x;
        assert ds[i] == init[i];
      }
      if exists i :: 0 <= i < |ds| && keep(ds[i]) && make(ds[i]) == x {
        var i :| 0 <= i < |ds| && keep(ds[i]) && make(ds[i]) == x;
        if i < |init| {
          assert init[i] == ds[i];
        }
      }
    }
  }

  // ---------------------------------------------------------------- the steps

  /** What the engine asks of the persona, with the value it passes. */
  datatype EngineCall =
    | ChangePostalAddresses(postalAddresses: set<PostalAddressFieldDetails>)
    | ChangeAvatar(icon: Option<string>)
    | ChangeBirthday(birthday: Option<int>)
    | ChangeCalendarEventId(calendarId: string)
    | ChangeIsFavourite(isFavourite: bool)
    | ChangeFullName(fullName: string)
    | ChangeAlias(alias: string)
    | ChangeStructuredName(name: Option<StructuredName>)
    | ChangeNotes(notes: set<FieldDetails>)
    | ChangePhoneNumbers(numbers: set<FieldDetails>)
    | ChangeImAddresses(imAddresses: set<(string, FieldDetails)>)
    | ChangeRoles(roles: set<RoleFieldDetails>)
    | ChangeUrls(urls: set<FieldDetails>)
    | ChangeEmailAddresses(emailAddresses: set<FieldDetails>)
    | ChangeGender(gender: FolksGender)

  /** The fifteen links of the chain. */
  datatype Step =
    | AddressesStep | AvatarStep | BirthdayStep | CalendarEventIdStep | FavouriteStep | FullNameStep
    | AliasStep | StructuredNameStep | NotesStep | PhoneNumbersStep | ImAddressesStep | RolesStep
    | UrlsStep | EmailAddressesStep | GenderStep

  /** The order in which each completion callback starts the next step. */
  const ChainOrder: seq<Step> :=
    [AddressesStep, AvatarStep, BirthdayStep, CalendarEventIdStep, FavouriteStep, FullNameStep,
     AliasStep, StructuredNameStep, NotesStep, PhoneNumbersStep, ImAddressesStep, RolesStep,
     UrlsStep, EmailAddressesStep, GenderStep]

  /** The position of a step in the chain. */
  function Rank(s: Step): nat
  {
    match s
    case AddressesStep => 0
    case AvatarStep => 1
    case BirthdayStep => 2
    case CalendarEventIdStep => 3
    case FavouriteStep => 4
    case FullNameStep => 5
    case AliasStep => 6
    case StructuredNameStep => 7
    case NotesStep => 8
    case PhoneNumbersStep => 9
    case ImAddressesStep => 10
    case RolesStep => 11
    case UrlsStep => 12
    case EmailAddressesStep => 13
    case GenderStep => 14
  }

  /** The detail type checkDetailsChanged compares for a step. */
  function StepKind(s: Step): DetailKind
  {
    match s
    case AddressesStep => Address
    case AvatarStep => Avatar
    case BirthdayStep => Birthday
    case CalendarEventIdStep => Birthday
    case FavouriteStep => Favorite
    case FullNameStep => DisplayLabel
    case AliasStep => DisplayLabel
    case StructuredNameStep => Name
    case NotesStep => Note
    case PhoneNumbersStep => PhoneNumber
    case ImAddressesStep => OnlineAccount
    case RolesStep => Organization
    case UrlsStep => Url
    case EmailAddressesStep => EmailAddress
    case GenderStep => Gender
  }

  /** The interface the persona must implement for a step to issue its call. */
  function StepInterface(s: Step): DetailsInterface
  {
    match s
    case AddressesStep => HasPostalAddresses
    case AvatarStep => HasAvatar
    case BirthdayStep => HasBirthday
    case CalendarEventIdStep => HasBirthday
    case FavouriteStep => HasFavourite
    case FullNameStep => HasName
    case AliasStep => HasAlias
    case StructuredNameStep => HasName
    case NotesStep => HasNotes
    case PhoneNumbersStep => HasPhoneNumbers
    case ImAddressesStep => HasImAddresses
    case RolesStep => HasRoles
    case UrlsStep => HasUrls
    case EmailAddressesStep => HasEmailAddresses
    case GenderStep => HasGender
  }

  /** The further test four steps make on the edited contact: a birthday detail, or a non-empty label. */
  predicate HasValue(s: Step, edited: Contact)
  {
    match s
    case BirthdayStep => !IsEmptyDetail(FirstOf(edited, Birthday))
    case CalendarEventIdStep => !IsEmptyDetail(FirstOf(edited, Birthday))
    case FullNameStep => LabelOf(edited) != ""
    case AliasStep => LabelOf(edited) != ""
    case _ => true
  }

  /** The birthday as seconds since the epoch; None stands for an invalid date. */
  function BirthdaySeconds(d: Detail): Option<int>
  {
    if BirthdayField in d.fields && d.fields[BirthdayField].Moment? then Some(d.fields[BirthdayField].unixSeconds) else None
  }

  /** The avatar's image URL; an empty one is sent as a NULL icon. */
  function AvatarIconOf(d: Detail): Option<string>
  {
    if ImageUrl in d.fields && d.fields[ImageUrl].Link? && d.fields[ImageUrl].url != "" then Some(d.fields[ImageUrl].url) else None
  }

  /** QContactFavorite::isFavorite(): false when the field is missing. */
  function FavouriteOf(d: Detail): bool
  {
    FavoriteField in d.fields && d.fields[FavoriteField].Flag? && d.fields[FavoriteField].b
  }

  /** A structured name from the first name detail; none when that detail is empty. */
  function StructuredNameOf(d: Detail): Option<StructuredName>
  {
    if IsEmptyDetail(d) then None
    else Some(StructuredName(StringField(d, LastName), StringField(d, FirstName), StringField(d, MiddleName),
                             StringField(d, Prefix), StringField(d, Suffix)))
  }

  /** Male and female are passed on; anything else is unspecified. */
  function GenderOf(d: Detail): FolksGender
  {
    if GenderField in d.fields && d.fields[GenderField] == GenderValue(GenderMale) then FolksMale
    else if GenderField in d.fields && d.fields[GenderField] == GenderValue(GenderFemale) then FolksFemale
    else FolksUnspecified
  }

  /** The call a step issues and the value it passes, built from the edited contact. */
  function CallOf(s: Step, c: Contact): EngineCall
  {
    match s
    case AddressesStep => ChangePostalAddresses(Collected(DetailsOf(c, Address), Kept, AddressPayload))
    case AvatarStep => ChangeAvatar(AvatarIconOf(FirstOf(c, Avatar)))
    case BirthdayStep => ChangeBirthday(BirthdaySeconds(FirstOf(c, Birthday)))
    case CalendarEventIdStep => ChangeCalendarEventId(StringField(FirstOf(c, Birthday), CalendarId))
    case FavouriteStep => ChangeIsFavourite(FavouriteOf(FirstOf(c, Favorite)))
    case FullNameStep => ChangeFullName(LabelOf(c))
    case AliasStep => ChangeAlias(LabelOf(c))
    case StructuredNameStep => ChangeStructuredName(StructuredNameOf(FirstOf(c, Name)))
    case NotesStep => ChangeNotes(Collected(DetailsOf(c, Note), Kept, NotePayload))
    case PhoneNumbersStep => ChangePhoneNumbers(Collected(DetailsOf(c, PhoneNumber), Kept, PhonePayload))
    case ImAddressesStep => ChangeImAddresses(Collected(DetailsOf(c, OnlineAccount), WritableAccount, AccountPayload))
    case RolesStep => ChangeRoles(Collected(DetailsOf(c, Organization), Kept, RolePayload))
    case UrlsStep => ChangeUrls(Collected(DetailsOf(c, Url), Kept, UrlPayload))
    case EmailAddressesStep => ChangeEmailAddresses(Collected(DetailsOf(c, EmailAddress), Kept, EmailPayload))
    case GenderStep => ChangeGender(GenderOf(FirstOf(c, Gender)))
  }

  /** The body of each step's function: build the value and issue the call. */
  method BuildCall(s: Step, c: Contact) returns (call: EngineCall)
    ensures call == CallOf(s, c)
  {
    match s {
      case AddressesStep =>
        var addresses := CollectEach(DetailsOf(c, Address), Kept, AddressPayload);
        call := ChangePostalAddresses(addresses);
      case AvatarStep => call := ChangeAvatar(AvatarIconOf(FirstOf(c, Avatar)));
      case BirthdayStep => call := ChangeBirthday(BirthdaySeconds(FirstOf(c, Birthday)));
      case CalendarEventIdStep => call := ChangeCalendarEventId(StringField(FirstOf(c, Birthday), CalendarId));
      case FavouriteStep => call := ChangeIsFavourite(FavouriteOf(FirstOf(c, Favorite)));
      case FullNameStep => call := ChangeFullName(LabelOf(c));
      case AliasStep => call := ChangeAlias(LabelOf(c));
      case StructuredNameStep => call := ChangeStructuredName(StructuredNameOf(FirstOf(c, Name)));
      case NotesStep =>
        var notes := CollectEach(DetailsOf(c, Note), Kept, NotePayload);
        call := ChangeNotes(notes);
      case PhoneNumbersStep =>
        var numbers := CollectEach(DetailsOf(c, PhoneNumber), Kept, PhonePayload);
        call := ChangePhoneNumbers(numbers);
      case ImAddressesStep =>
        var addresses := CollectEach(DetailsOf(c, OnlineAccount), WritableAccount, AccountPayload);
        call := ChangeImAddresses(addresses);
      case RolesStep =>
        var roles := CollectEach(DetailsOf(c, Organization), Kept, RolePayload);
        call := ChangeRoles(roles);
      case UrlsStep =>
        var urls := CollectEach(DetailsOf(c, Url), Kept, UrlPayload);
        call := ChangeUrls(urls);
      case EmailAddressesStep =>
        var addresses := CollectEach(DetailsOf(c, EmailAddress), Kept, EmailPayload);
        call := ChangeEmailAddresses(addresses);
      case GenderStep => call := ChangeGender(GenderOf(FirstOf(c, Gender)));
    }
  }


  // ---------------------------------------------------------------- the chain

  /**
   * CallbackData, with the persona the chain writes to: the edited contact,
   * the contact as the engine last stored it, and the aggregator's primary
   * store. Personas and stores are GObject handles; NULL is None.
   */
  datatype SaveData = SaveData(persona: Option<Persona>, edited: Contact, stored: Contact, store: Option<nat>)

  /** What the engine does, in order; an issued call is tagged with the step that issued it. */
  datatype Event =
    | Issued(step: Step, call: EngineCall)
    | FlushStore(store: nat)
    | NoStoreWarning
    | ReleasePersona(persona: nat)
    | DeleteData

  /** A step issues its call when the persona implements its interface, its group was edited and the value test passes. */
  predicate Issues(s: Step, data: SaveData)
  {
    data.persona.Some? && StepInterface(s) in data.persona.value.interfaces &&
    Changed(DetailsOf(data.stored, StepKind(s)), DetailsOf(data.edited, StepKind(s))) &&
    HasValue(s, data.edited)
  }

  /** The steps of a run whose conditions hold, in order. */
  function Issuing(ps: seq<Step>, data: SaveData): seq<Step>
    decreases |ps|
  {
    if ps == [] then []
    else Issuing(ps[..|ps| - 1], data) + (if Issues(ps[|ps| - 1], data) then [ps[|ps| - 1]] else [])
  }

  /** The calls issued by a run of steps, each built from the edited contact. */
  function Calls(ss: seq<Step>, c: Contact): (r: seq<Event>)
    ensures |r| == |ss|
    ensures forall i :: 0 <= i < |ss| ==> r[i].Issued? && r[i].step == ss[i]
    decreases |ss|
  {
    if ss == [] then [] else Calls(ss[..|ss| - 1], c) + [Issued(ss[|ss| - 1], CallOf(ss[|ss| - 1], c))]
  }

  /** What a run of steps asks of the persona. */
  function StepsTrace(ps: seq<Step>, data: SaveData): seq<Event>
  {
    Calls(Issuing(ps, data), data.edited)
  }

  /** The last callback: flush the store or warn that there is none, drop the persona, free the data. */
  function Terminal(data: SaveData): seq<Event>
  {
    (if data.store.Some? then [FlushStore(data.store.value)] else [NoStoreWarning]) +
    (if data.persona.Some? then [ReleasePersona(data.persona.value.handle)] else []) +
    [DeleteData]
  }

  /** Everything a save does, from the address step to freeing the callback data. */
  function ChainTrace(data: SaveData): seq<Event>
  {
    StepsTrace(ChainOrder, data) + Terminal(data)
  }

  /** One more step at the end of a run adds its call when it issues one. */
  lemma StepsTraceStep(ps: seq<Step>, s: Step, data: SaveData)
    ensures StepsTrace(ps + [s], data) ==
      StepsTrace(ps, data) + (if Issues(s, data) then [Issued(s, CallOf(s, data.edited))] else [])
  {
    assert (ps + [s])[..|ps|] == ps;
    var ss := Issuing(ps, data);
    if Issues(s, data) {
      assert Issuing(ps + [s], data) == ss + [s];
      assert (ss + [s])[..|ss|] == ss;
      assert Calls(ss + [s], data.edited) == Calls(ss, data.edited) + [Issued(s, CallOf(s, data.edited))];
    } else {
      assert Issuing(ps + [s], data) == ss;
    }
  }

  /** Run the steps in turn; a step that issues nothing hands over at once. */
  method RunSteps(ps: seq<Step>, data: SaveData) returns (trace: seq<Event>)
    ensures trace == StepsTrace(ps, data)
  {
    trace := [];
    var i := 0;
    while i < |ps|
      invariant 0 <= i <= |ps|
      invariant trace == StepsTrace(ps[..i], data)
    {
      var s := ps[i];
      assert ps[..i + 1] == ps[..i] + [s];
      StepsTraceStep(ps[..i], s, data);
      if data.persona.Some? && StepInterface(s) in data.persona.value.interfaces {
        var changed := CheckDetailsChanged(StepKind(s), data.stored, data.edited);
        if changed && HasValue(s, data.edited) {
          var call := BuildCall(s, data.edited);
          trace := trace + [Issued(s, call)];
        }
      }
      i := i + 1;
    }
    assert ps[..i] == ps;
  }

  /** The save chain once contactSaveChangesToFolks has found the individual and built the callback data. */
  method RunChain(data: SaveData) returns (trace: seq<Event>)
    ensures trace == ChainTrace(data)
  {
    trace := RunSteps(ChainOrder, data);
    if data.store.None? {
      trace := trace + [NoStoreWarning];
    } else {
      trace := trace + [FlushStore(data.store.value)];
    }
    if data.persona.Some? {
      trace := trace + [ReleasePersona(data.persona.value.handle)];
    }
    trace := trace + [DeleteData];
  }

  // ---------------------------------------------------------------- what the chain promises

  /** A step is kept exactly when it is in the run and its conditions hold. */
  lemma {:induction false} IssuingMeaning(ps: seq<Step>, data: SaveData)
    ensures forall s :: s in Issuing(ps, data) <==> s in ps && Issues(s, data)
    decreases |ps|
  {
    if ps != [] {
      IssuingMeaning(ps[..|ps| - 1], data);
      assert ps == ps[..|ps| - 1] + [ps[|ps| - 1]];
    }
  }

  /** The trace of a list of steps holds, for each of them, its call built from the contact, and nothing else. */
  lemma {:induction false} CallsMeaning(ss: seq<Step>, c: Contact, e: Event)
    ensures e in Calls(ss, c) <==> e.Issued? && e.step in ss && e.call == CallOf(e.step, c)
    decreases |ss|
  {
    if ss != [] {
      var init := ss[..|ss| - 1];
      var last := ss[|ss| - 1];
      CallsMeaning(init, c, e);
      assert ss == init + [last];
      if e.Issued? {
        assert e.step in ss <==> e.step in init || e.step == last;
      }
    }
  }

  lemma EveryStepChained(s: Step)
    ensures Rank(s) < |ChainOrder| && ChainOrder[Rank(s)] == s
  {
  }

  /** The chain issues a step's call exactly when the step's conditions hold. */
  lemma IssuedIffIssues(data: SaveData, s: Step)
    ensures Issued(s, CallOf(s, data.edited)) in ChainTrace(data) <==> Issues(s, data)
  {
    var e := Issued(s, CallOf(s, data.edited));
    IssuedInSteps(ChainOrder, data, s);
    EveryStepChained(s);
    assert e !in Terminal(data);
    assert ChainTrace(data) == StepsTrace(ChainOrder, data) + Terminal(data);
  }

  /** A run of steps issues a step's call exactly when the step is in the run and its conditions hold. */
  lemma IssuedInSteps(ps: seq<Step>, data: SaveData, s: Step)
    ensures Issued(s, CallOf(s, data.edited)) in StepsTrace(ps, data) <==> s in ps && Issues(s, data)
  {
    IssuingMeaning(ps, data);
    CallsMeaning(Issuing(ps, data), data.edited, Issued(s, CallOf(s, data.edited)));
  }

  /** The callback data is freed once, by the last event. */
  lemma DeletedOnceAtEnd(data: SaveData)
    ensures |ChainTrace(data)| > 0 && ChainTrace(data)[|ChainTrace(data)| - 1] == DeleteData
    ensures forall i :: 0 <= i < |ChainTrace(data)| - 1 ==> ChainTrace(data)[i] != DeleteData
    ensures multiset(ChainTrace(data))[DeleteData] == 1
  {
    var t := ChainTrace(data);
    var steps := StepsTrace(ChainOrder, data);
    var head := t[..|t| - 1];
    assert t == head + [DeleteData];
    forall i | 0 <= i < |head|
      ensures head[i] != DeleteData
    {
      if i < |steps| {
        assert head[i] == steps[i];
      }
    }
    assert DeleteData !in multiset(head);
    assert multiset(t) == multiset(head) + multiset{DeleteData};
  }

  predicate Ascending(ps: seq<Step>)
  {
    forall i, j :: 0 <= i < j < |ps| ==> Rank(ps[i]) < Rank(ps[j])
  }

  lemma ChainOrderAscending()
    ensures Ascending(ChainOrder)
  {
    assert forall i :: 0 <= i < |ChainOrder| ==> Rank(ChainOrder[i]) == i;
  }

  /** Keeping some steps of an ascending run keeps it ascending. */
  lemma {:induction false} IssuingAscending(ps: seq<Step>, data: SaveData)
    requires Ascending(ps)
    ensures Ascending(Issuing(ps, data))
    decreases |ps|
  {
    if ps != [] {
      var init := ps[..|ps| - 1];
      var last := ps[|ps| - 1];
      IssuingAscending(init, data);
      IssuingMeaning(init, data);
      var ss := Issuing(init, data);
      forall k | 0 <= k < |ss|
        ensures Rank(ss[k]) < Rank(last)
      {
        assert ss[k] in ss;
        var m :| 0 <= m < |init| && init[m] == ss[k];
        assert ps[m] == init[m];
      }
    }
  }

  /** The chain issues its calls in chain order, so each at most once. */
  lemma CallsInChainOrder(data: SaveData)
    ensures forall i, j :: 0 <= i < j < |ChainTrace(data)| && ChainTrace(data)[i].Issued? && ChainTrace(data)[j].Issued? ==>
      Rank(ChainTrace(data)[i].step) < Rank(ChainTrace(data)[j].step)
  {
    var ss := Issuing(ChainOrder, data);
    var steps := Calls(ss, data.edited);
    var t := ChainTrace(data);
    ChainOrderAscending();
    IssuingAscending(ChainOrder, data);
    forall j | |steps| <= j < |t|
      ensures !t[j].Issued?
    {
      assert t[j] == Terminal(data)[j - |steps|];
    }
    forall i | 0 <= i < |steps|
      ensures t[i].step == ss[i]
    {
      assert t[i] == steps[i];
    }
  }

  /** No step issues anything when no condition holds. */
  lemma {:induction false} IssuingSilent(ps: seq<Step>, data: SaveData)
    requires forall s :: !Issues(s, data)
    ensures Issuing(ps, data) == []
    decreases |ps|
  {
    if ps != [] {
      IssuingSilent(ps[..|ps| - 1], data);
    }
  }

  /** Saving a contact exactly as it is stored changes nothing in Folks. */
  lemma UnchangedContactWritesNothing(persona: Option<Persona>, c: Contact, store: Option<nat>)
    ensures ChainTrace(SaveData(persona, c, c, store)) == Terminal(SaveData(persona, c, c, store))
  {
    var data := SaveData(persona, c, c, store);
    forall s
      ensures !Issues(s, data)
    {
      NothingChangedAgainstItself(c, StepKind(s));
    }
    IssuingSilent(ChainOrder, data);
  }

  /** Without a primary persona no call is issued, but the chain still runs to its end. */
  lemma NoPersonaWritesNothing(data: SaveData)
    requires data.persona.None?
    ensures ChainTrace(data) == (if data.store.Some? then [FlushStore(data.store.value)] else [NoStoreWarning]) + [DeleteData]
  {
    IssuingSilent(ChainOrder, data);
  }

  /**
   * The full-name and alias steps both key on the display label: for a
   * persona implementing both interfaces, one issues exactly when the other
   * does, namely when the label was edited and is not empty.
   */
  lemma NameAndAliasStepsAgree(data: SaveData)
    requires data.persona.Some? && HasName in data.persona.value.interfaces && HasAlias in data.persona.value.interfaces
    ensures Issues(FullNameStep, data) <==> Issues(AliasStep, data)
    ensures Issues(AliasStep, data) <==>
      Changed(DetailsOf(data.stored, DisplayLabel), DetailsOf(data.edited, DisplayLabel)) && LabelOf(data.edited) != ""
  {
  }

  // ---------------------------------------------------------------- round trips with the projector

  predicate DistinctInts(s: seq<int>)
  {
    forall i, j :: 0 <= i < j < |s| ==> s[i] != s[j]
  }

  /** Contexts as the projector writes them: home, work or other. */
  predicate NormalContexts(cs: seq<int>)
  {
    forall i :: 0 <= i < |cs| ==> ContextHome <= cs[i] <= ContextOther
  }

  /** The parameters of a Folks value whose "type" tags are all contexts: no key at all, or one "type" key. */
  predicate ContextParameters(p: Parameters)
  {
    p == [] ||
    (|p| == 1 && p[0].0 == "type" && p[0].1 != [] && NoDuplicates(p[0].1) &&
     forall i :: 0 <= i < |p[0].1| ==> ContextCode(p[0].1[i]).Some?)
  }

  lemma NoDuplicatesAppend(a: seq<string>, b: seq<string>)
    requires NoDuplicates(a) && NoDuplicates(b)
    requires forall i, j :: 0 <= i < |a| && 0 <= j < |b| ==> a[i] != b[j]
    ensures NoDuplicates(a + b)
  {
    forall i, j | 0 <= i < j < |a + b|
      ensures (a + b)[i] != (a + b)[j]
    {
      if j < |a| {
        assert (a + b)[i] == a[i] && (a + b)[j] == a[j];
      } else if i < |a| {
        assert (a + b)[i] == a[i] && (a + b)[j] == b[j - |a|];
      } else {
        assert (a + b)[i] == b[i - |a|] && (a + b)[j] == b[j - |a|];
      }
    }
  }

  /** Distinct tags are written as one "type" key holding them in order, and read back unchanged. */
  lemma TypeParametersReadBack(tags: seq<string>)
    requires NoDuplicates(tags)
    ensures TypeParameters(tags) == if tags == [] then [] else [("type", tags)]
    ensures TypeTags(TypeParameters(tags)) == tags
  {
    if tags != [] {
      AddNewDistinct([], tags);
      assert [] + tags == tags;
      TypeTagsOfDistinct(tags);
    }
  }

  lemma ContextTagsDistinct(cs: seq<int>)
    requires DistinctInts(cs) && NormalContexts(cs)
    ensures NoDuplicates(Map(ContextTag, cs))
  {
  }

  lemma NormalContextsFixed(cs: seq<int>)
    requires NormalContexts(cs)
    ensures Map(NormalContext, cs) == cs
  {
  }

  /** Distinct normal contexts survive being written as tags and read back. */
  lemma ContextsSurvive(cs: seq<int>)
    requires DistinctInts(cs) && NormalContexts(cs)
    ensures ContextsOf(TypeParameters(Map(ContextTag, cs))) == cs
  {
    ContextTagsDistinct(cs);
    TypeParametersReadBack(Map(ContextTag, cs));
    ContextsRoundTrip(cs);
    NormalContextsFixed(cs);
  }

  /** Tags that are all distinct context names survive being read as contexts and written back. */
  lemma ContextParametersSurvive(p: Parameters)
    requires ContextParameters(p)
    ensures TypeParameters(Map(ContextTag, ContextsOf(p))) == p
  {
    if p != [] {
      var tags := p[0].1;
      TypeTagsOfDistinct(tags);
      assert p == [("type", tags)];
      ContextTagsRoundTrip(tags);
      TypeParametersReadBack(tags);
    }
  }

  /** A note read from Folks is written back as the same field details. */
  lemma NoteSurvivesFromFolks(fd: FieldDetails)
    requires ContextParameters(fd.parameters)
    ensures NotePayload(NoteDetail(fd)) == fd
  {
    ContextParametersSurvive(fd.parameters);
  }

  /** An email address read from Folks is written back as the same field details. */
  lemma EmailSurvivesFromFolks(fd: FieldDetails)
    requires ContextParameters(fd.parameters)
    ensures EmailPayload(EmailDetail(fd)) == fd
  {
    ContextParametersSurvive(fd.parameters);
  }

  /**
   * A birthday read from Folks is written back as the same seconds exactly
   * when it lies in setTime_t's uint range; one before 1970 comes back
   * 2^32 seconds later.
   */
  lemma BirthdaySurvivesFromFolks(individual: Individual)
    requires individual.birthday.Some?
    ensures BirthdaySeconds(Group(BirthdayChanged, individual)[0]) == individual.birthday <==>
      0 <= individual.birthday.value < 0x1_0000_0000
    ensures -0x1_0000_0000 <= individual.birthday.value < 0 ==>
      BirthdaySeconds(Group(BirthdayChanged, individual)[0]) == Some(individual.birthday.value + 0x1_0000_0000)
  {
  }

  /** A URL read from Folks is written back as the same field details. */
  lemma UrlSurvivesFromFolks(fd: FieldDetails)
    requires ContextParameters(fd.parameters)
    ensures UrlPayload(UrlDetail(fd)) == fd
  {
    ContextParametersSurvive(fd.parameters);
  }

  /** A QtContacts note with distinct normal contexts is read back unchanged after being written to Folks. */
  lemma NoteSurvivesFromQt(text: string, cs: seq<int>)
    requires DistinctInts(cs) && NormalContexts(cs)
    ensures NoteDetail(NotePayload(Detail(Note, map[NoteField := Str(text), Context := Ints(cs)]))) ==
            Detail(Note, map[NoteField := Str(text), Context := Ints(cs)])
  {
    ContextsSurvive(cs);
  }

  /** Context tags and phone sub-type tags, each list distinct, share one "type" key without a repeat. */
  lemma PhoneTagsDistinct(cs: seq<int>, st: seq<int>)
    requires DistinctInts(cs) && NormalContexts(cs)
    requires DistinctInts(st) && forall i :: 0 <= i < |st| ==> PhoneSubTypeTag(st[i]).Some?
    ensures NoDuplicates(Map(ContextTag, cs) + FilterMap(PhoneSubTypeTag, st))
  {
    PhoneTablesInverse();
    PhoneTagsDisjointFromContexts();
    SubTypeTagsDistinct(cs, st, PhoneSubTypeTag, PhoneSubTypeCode);
  }


  /**
   * A phone number with distinct normal contexts and distinct known
   * sub-types is read back unchanged after being written to Folks: the two
   * kinds of tag share the "type" key without being confused.
   */
  lemma PhoneSurvivesFromQt(number: string, cs: seq<int>, st: seq<int>)
    requires DistinctInts(cs) && NormalContexts(cs)
    requires DistinctInts(st) && forall i :: 0 <= i < |st| ==> PhoneSubTypeTag(st[i]).Some?
    ensures PhoneDetail(PhonePayload(Detail(PhoneNumber, map[NumberField := Str(number), Context := Ints(cs), SubTypes := Ints(st)]))) ==
            Detail(PhoneNumber, map[NumberField := Str(number), Context := Ints(cs), SubTypes := Ints(st)])
  {
    var d := Detail(PhoneNumber, map[NumberField := Str(number), Context := Ints(cs), SubTypes := Ints(st)]);
    var tags := Map(ContextTag, cs) + FilterMap(PhoneSubTypeTag, st);
    assert IntsField(d, Context) == cs && IntsField(d, SubTypes) == st;
    assert PhonePayload(d) == FieldDetails(number, TypeParameters(tags));
    PhoneTagsDistinct(cs, st);
    TypeParametersReadBack(tags);
    PhoneTypeParameterSeparates(cs, st);
    FilterMapAllKnown(PhoneSubTypeTag, st);
    NormalContextsFixed(cs);
  }

  /** Context tags and the tags of a sub-type table that never names a context share one "type" key without a repeat. */
  lemma SubTypeTagsDistinct(cs: seq<int>, st: seq<int>, tag: int -> Option<string>, code: string -> Option<int>)
    requires DistinctInts(cs) && NormalContexts(cs)
    requires DistinctInts(st) && forall i :: 0 <= i < |st| ==> tag(st[i]).Some?
    requires Inverse(tag, code) && forall c :: code(ContextTag(c)).None?
    ensures NoDuplicates(Map(ContextTag, cs) + FilterMap(tag, st))
  {
    var ctags := Map(ContextTag, cs);
    var stags := FilterMap(tag, st);
    ContextTagsDistinct(cs);
    FilterMapAllKnown(tag, st);
    assert NoDuplicates(stags) by {
      forall i, j | 0 <= i < j < |stags|
        ensures stags[i] != stags[j]
      {
        assert code(stags[i]) == Some(st[i]);
        assert code(stags[j]) == Some(st[j]);
      }
    }
    forall i, j | 0 <= i < |ctags| && 0 <= j < |stags|
      ensures ctags[i] != stags[j]
    {
      assert code(ctags[i]).None?;
      assert code(stags[j]) == Some(st[j]);
    }
    NoDuplicatesAppend(ctags, stags);
  }

  /**
   * A postal address with distinct normal contexts and distinct known
   * sub-types is read back unchanged after being written to Folks; the
   * extension, format and uid the write leaves empty are not QtContacts fields.
   */
  lemma AddressSurvivesFromQt(poBox: string, street: string, locality: string, region: string, postcode: string, country: string,
                              cs: seq<int>, st: seq<int>)
    requires DistinctInts(cs) && NormalContexts(cs)
    requires DistinctInts(st) && forall i :: 0 <= i < |st| ==> AddressSubTypeTag(st[i]).Some?
    ensures AddressDetail(AddressPayload(Detail(Address, map[Country := Str(country), Locality := Str(locality), PostOfficeBox := Str(poBox),
                                                             Postcode := Str(postcode), Region := Str(region), Street := Str(street),
                                                             Context := Ints(cs), SubTypes := Ints(st)]))) ==
            Detail(Address, map[Country := Str(country), Locality := Str(locality), PostOfficeBox := Str(poBox),
                                Postcode := Str(postcode), Region := Str(region), Street := Str(street),
                                Context := Ints(cs), SubTypes := Ints(st)])
  {
    var d := Detail(Address, map[Country := Str(country), Locality := Str(locality), PostOfficeBox := Str(poBox),
                                 Postcode := Str(postcode), Region := Str(region), Street := Str(street),
                                 Context := Ints(cs), SubTypes := Ints(st)]);
    var tags := Map(ContextTag, cs) + FilterMap(AddressSubTypeTag, st);
    assert IntsField(d, Context) == cs && IntsField(d, SubTypes) == st;
    var payload := AddressPayload(d);
    assert payload == PostalAddressFieldDetails(PostalAddress(poBox, "", street, locality, region, postcode, country, "", ""),
                                                TypeParameters(tags));
    AddressTagsReadBack(cs, st);
    assert TypeTags(payload.parameters) == tags;
  }

  /** The "type" tags of an address read back as its contexts and its sub-types. */
  lemma AddressTagsReadBack(cs: seq<int>, st: seq<int>)
    requires DistinctInts(cs) && NormalContexts(cs)
    requires DistinctInts(st) && forall i :: 0 <= i < |st| ==> AddressSubTypeTag(st[i]).Some?
    ensures TypeTags(TypeParameters(Map(ContextTag, cs) + FilterMap(AddressSubTypeTag, st))) ==
            Map(ContextTag, cs) + FilterMap(AddressSubTypeTag, st)
    ensures FilterMap(ContextCode, Map(ContextTag, cs) + FilterMap(AddressSubTypeTag, st)) == cs
    ensures FilterMap(AddressSubTypeCode, Map(ContextTag, cs) + FilterMap(AddressSubTypeTag, st)) == st
  {
    AddressTablesInverse();
    AddressTagsDisjointFromContexts();
    SubTypeTagsDistinct(cs, st, AddressSubTypeTag, AddressSubTypeCode);
    TypeParametersReadBack(Map(ContextTag, cs) + FilterMap(AddressSubTypeTag, st));
    AddressTypeParameterSeparates(cs, st);
    FilterMapAllKnown(AddressSubTypeTag, st);
    NormalContextsFixed(cs);
  }

  /**
   * An online account of a named protocol, with distinct normal contexts and
   * distinct known sub-types, is read back unchanged from the multimap entry
   * the IM step writes for it.
   */
  lemma AccountSurvivesFromQt(uri: string, protocol: Protocol, cs: seq<int>, st: seq<int>)
    requires protocol != ProtocolUnknown
    requires DistinctInts(cs) && NormalContexts(cs)
    requires DistinctInts(st) && forall i :: 0 <= i < |st| ==> AccountSubTypeTag(st[i]).Some?
    ensures ImDetail(AccountPayload(Detail(OnlineAccount, map[AccountUri := Str(uri), ProtocolField := ProtocolValue(protocol),
                                                              Context := Ints(cs), SubTypes := Ints(st)])).0,
                     AccountPayload(Detail(OnlineAccount, map[AccountUri := Str(uri), ProtocolField := ProtocolValue(protocol),
                                                              Context := Ints(cs), SubTypes := Ints(st)])).1) ==
            Detail(OnlineAccount, map[AccountUri := Str(uri), ProtocolField := ProtocolValue(protocol),
                                      Context := Ints(cs), SubTypes := Ints(st)])
  {
    var d := Detail(OnlineAccount, map[AccountUri := Str(uri), ProtocolField := ProtocolValue(protocol),
                                       Context := Ints(cs), SubTypes := Ints(st)]);
    var tags := Map(ContextTag, cs) + FilterMap(AccountSubTypeTag, st);
    assert IntsField(d, Context) == cs && IntsField(d, SubTypes) == st && AccountProtocol(d) == protocol;
    ProtocolRoundTrip(protocol);
    var payload := AccountPayload(d);
    assert payload == (ProtocolFromEnum(protocol).value, FieldDetails(uri, TypeParameters(tags)));
    AccountTagsReadBack(cs, st);
    assert TypeTags(payload.1.parameters) == tags;
  }

  /** The "type" tags of an online account read back as its contexts and its sub-types. */
  lemma AccountTagsReadBack(cs: seq<int>, st: seq<int>)
    requires DistinctInts(cs) && NormalContexts(cs)
    requires DistinctInts(st) && forall i :: 0 <= i < |st| ==> AccountSubTypeTag(st[i]).Some?
    ensures TypeTags(TypeParameters(Map(ContextTag, cs) + FilterMap(AccountSubTypeTag, st))) ==
            Map(ContextTag, cs) + FilterMap(AccountSubTypeTag, st)
    ensures FilterMap(ContextCode, Map(ContextTag, cs) + FilterMap(AccountSubTypeTag, st)) == cs
    ensures FilterMap(AccountSubTypeCode, Map(ContextTag, cs) + FilterMap(AccountSubTypeTag, st)) == st
  {
    AccountTablesInverse();
    AccountTagsDisjointFromContexts();
    SubTypeTagsDistinct(cs, st, AccountSubTypeTag, AccountSubTypeCode);
    TypeParametersReadBack(Map(ContextTag, cs) + FilterMap(AccountSubTypeTag, st));
    AccountTypeParameterSeparates(cs, st);
    FilterMapAllKnown(AccountSubTypeTag, st);
    NormalContextsFixed(cs);
  }

  /**
   * A role read from Folks is written back with its title, organisation name
   * and parameters; the uid and the role name are not read into the
   * organisation detail, so they come back empty.
   */
  lemma RoleSurvivesFromFolks(rfd: RoleFieldDetails)
    requires ContextParameters(rfd.parameters)
    ensures RolePayload(OrganizationDetail(rfd)) == RoleFieldDetails(rfd.role.(uid := "", role := ""), rfd.parameters)
  {
    ContextParametersSurvive(rfd.parameters);
  }

  /**
   * The avatar the projector shows is the icon the avatar step sends back: a
   * file icon or a cached icon with a non-empty URI comes back as that URI,
   * and no detail is made for no avatar or an uncached icon.
   */
  lemma AvatarSurvivesFromFolks(individual: Individual)
    ensures Group(AvatarChanged, individual) == [] <==>
      individual.avatar.NoAvatar? || (individual.avatar.LoadableIcon? && !individual.avatar.cached)
    ensures individual.avatar.FileIcon? && individual.avatar.fileUri != "" ==>
      AvatarIconOf(Group(AvatarChanged, individual)[0]) == Some(individual.avatar.fileUri)
    ensures individual.avatar.LoadableIcon? && individual.avatar.cached && individual.avatar.cacheUri != "" ==>
      AvatarIconOf(Group(AvatarChanged, individual)[0]) == Some(individual.avatar.cacheUri)
  {
  }

  /** The notes the projector made from Folks values are written back as the set of those values. */
  lemma {:induction false} NotesGroupWrittenBack(notes: seq<FieldDetails>)
    requires forall i :: 0 <= i < |notes| ==> ContextParameters(notes[i].parameters)
    ensures Collected(Map(NoteDetail, notes), Kept, NotePayload) == set fd | fd in notes
  {
    var ds := Map(NoteDetail, notes);
    forall x
      ensures x in Collected(ds, Kept, NotePayload) <==> x in notes
    {
      CollectedMeaning(ds, Kept, NotePayload, x);
      if x in notes {
        var i :| 0 <= i < |notes| && notes[i] == x;
        NoteSurvivesFromFolks(notes[i]);
        assert NoteField in ds[i].fields;
      }
      if x in Collected(ds, Kept, NotePayload) {
        var i :| 0 <= i < |ds| && Kept(ds[i]) && NotePayload(ds[i]) == x;
        NoteSurvivesFromFolks(notes[i]);
      }
    }
  }

  /** An individual's notes, projected and then saved unedited, are written back as the same set. */
  lemma NotesWrittenBack(c: Contact, individual: Individual)
    requires forall i :: 0 <= i < |individual.notes| ==> ContextParameters(individual.notes[i].parameters)
    ensures CallOf(NotesStep, Update(NotesChanged, c, individual)) == ChangeNotes(set fd | fd in individual.notes)
  {
    var u := Update(NotesChanged, c, individual);
    UpdateReplacesGroup(NotesChanged, c, individual);
    assert DetailsOf(u, Note) == Map(NoteDetail, individual.notes);
    NotesCallFromGroup(u, individual.notes);
  }

  /** The notes call on a contact whose notes group is the projection of Folks notes. */
  lemma NotesCallFromGroup(u: Contact, notes: seq<FieldDetails>)
    requires forall i :: 0 <= i < |notes| ==> ContextParameters(notes[i].parameters)
    requires DetailsOf(u, Note) == Map(NoteDetail, notes)
    ensures CallOf(NotesStep, u) == ChangeNotes(set fd | fd in notes)
  {
    NotesCall(u);
    NotesCollectedFromGroup(u, notes);
  }

  /** The notes step passes the notes collected from the contact. */
  lemma NotesCall(u: Contact)
    ensures CallOf(NotesStep, u) == ChangeNotes(Collected(DetailsOf(u, Note), Kept, NotePayload))
  {
  }

  /** The notes collected from a contact whose notes group is the projection of Folks notes. */
  lemma NotesCollectedFromGroup(u: Contact, notes: seq<FieldDetails>)
    requires forall i :: 0 <= i < |notes| ==> ContextParameters(notes[i].parameters)
    requires DetailsOf(u, Note) == Map(NoteDetail, notes)
    ensures Collected(DetailsOf(u, Note), Kept, NotePayload) == set fd | fd in notes
  {
    NotesGroupWrittenBack(notes);
  }

  // ---------------------------------------------------------------- the alias step as written

  /**
   * The chain as the alias step is written: it never records that it issued
   * its call, so it starts the rest of the chain directly even after issuing,
   * and the call's completion starts it a second time.
   */
  function AsWrittenChainTrace(data: SaveData): seq<Event>
  {
    var before := StepsTrace(ChainOrder[..Rank(AliasStep)], data);
    var rest := StepsTrace(ChainOrder[Rank(AliasStep) + 1..], data) + Terminal(data);
    if Issues(AliasStep, data) then before + [Issued(AliasStep, CallOf(AliasStep, data.edited))] + rest + rest
    else before + rest
  }

  lemma {:induction false} StepsTraceAppend(ps: seq<Step>, qs: seq<Step>, data: SaveData)
    ensures StepsTrace(ps + qs, data) == StepsTrace(ps, data) + StepsTrace(qs, data)
    decreases |qs|
  {
    if qs == [] {
      assert ps + qs == ps;
    } else {
      var init := qs[..|qs| - 1];
      var last := qs[|qs| - 1];
      assert ps + qs == (ps + init) + [last];
      assert qs == init + [last];
      StepsTraceAppend(ps, init, data);
      StepsTraceStep(ps + init, last, data);
      StepsTraceStep(init, last, data);
    }
  }

  /** The alias step is the seventh of the fifteen. */
  lemma AliasPosition()
    ensures Rank(AliasStep) == 6 && |ChainOrder| == 15 && ChainOrder[6] == AliasStep
  {
  }

  /** The corrected chain is the written one split around the alias step. */
  lemma ChainAroundAlias(data: SaveData)
    ensures ChainTrace(data) ==
      StepsTrace(ChainOrder[..Rank(AliasStep)], data) +
      (if Issues(AliasStep, data) then [Issued(AliasStep, CallOf(AliasStep, data.edited))] else []) +
      StepsTrace(ChainOrder[Rank(AliasStep) + 1..], data) + Terminal(data)
  {
    AliasPosition();
    var k := Rank(AliasStep);
    var before := ChainOrder[..k];
    var after := ChainOrder[k + 1..];
    assert ChainOrder == before + [AliasStep] + after;
    StepsTraceAppend(before + [AliasStep], after, data);
    StepsTraceStep(before, AliasStep, data);
  }

  /** When the alias step issues nothing, the written chain is the corrected one. */
  lemma AsWrittenAgreesWithoutAlias(data: SaveData)
    requires !Issues(AliasStep, data)
    ensures AsWrittenChainTrace(data) == ChainTrace(data)
  {
    ChainAroundAlias(data);
  }

  /** Only issued calls appear in the trace of a run of steps. */
  lemma NoDeleteInSteps(ps: seq<Step>, data: SaveData)
    ensures multiset(StepsTrace(ps, data))[DeleteData] == 0
  {
    var t := StepsTrace(ps, data);
    assert forall i :: 0 <= i < |t| ==> t[i] != DeleteData;
    assert DeleteData !in t;
  }

  /**
   * When the alias is written, the rest of the chain runs twice and the
   * callback data is deleted twice, where the corrected chain deletes it once.
   */
  lemma AsWrittenAliasDeletesTwice(data: SaveData)
    requires Issues(AliasStep, data)
    ensures multiset(AsWrittenChainTrace(data))[DeleteData] == 2
    ensures multiset(ChainTrace(data))[DeleteData] == 1
  {
    AliasPosition();
    var before := StepsTrace(ChainOrder[..Rank(AliasStep)], data);
    var rest := StepsTrace(ChainOrder[Rank(AliasStep) + 1..], data) + Terminal(data);
    NoDeleteInSteps(ChainOrder[..Rank(AliasStep)], data);
    RestDeletesOnce(data);
    DoubledRestDeletesTwice(before, Issued(AliasStep, CallOf(AliasStep, data.edited)), rest);
    DeletedOnceAtEnd(data);
  }

  /** The steps after the alias step, then the terminal events: one deletion. */
  lemma RestDeletesOnce(data: SaveData)
    ensures multiset(StepsTrace(ChainOrder[Rank(AliasStep) + 1..], data) + Terminal(data))[DeleteData] == 1
  {
    AliasPosition();
    var steps := StepsTrace(ChainOrder[Rank(AliasStep) + 1..], data);
    NoDeleteInSteps(ChainOrder[Rank(AliasStep) + 1..], data);
    assert multiset(Terminal(data))[DeleteData] == 1;
    assert multiset(steps + Terminal(data)) == multiset(steps) + multiset(Terminal(data));
  }

  /** Running a rest that deletes once twice, after events that delete nothing, deletes twice. */
  lemma DoubledRestDeletesTwice(before: seq<Event>, call: Event, rest: seq<Event>)
    requires multiset(before)[DeleteData] == 0 && call != DeleteData && multiset(rest)[DeleteData] == 1
    ensures multiset(before + [call] + rest + rest)[DeleteData] == 2
  {
    assert multiset(before + [call] + rest + rest) == multiset(before) + multiset{call} + multiset(rest) + multiset(rest);
  }

  /** The input that shows it: an edited, non-empty label saved to a persona that implements the alias interface. */
  lemma AliasEditShowsDoubleDelete(stored: Contact, text: string, store: Option<nat>)
    requires text != "" && DetailsOf(stored, DisplayLabel) == []
    ensures var edited := stored.(details := stored.details + [Detail(DisplayLabel, map[Label := Str(text)])]);
            var data := SaveData(Some(Persona(1, 1, {HasAlias})), edited, stored, store);
            Issues(AliasStep, data) && multiset(AsWrittenChainTrace(data))[DeleteData] == 2
  {
    var added := Detail(DisplayLabel, map[Label := Str(text)]);
    var edited := stored.(details := stored.details + [added]);
    var data := SaveData(Some(Persona(1, 1, {HasAlias})), edited, stored, store);
    OfKindAppend(stored.details, [added], DisplayLabel);
    assert OfKind([added], DisplayLabel) == [added];
    assert DetailsOf(edited, DisplayLabel) == [added];
    DifferentCountsChanged(DetailsOf(stored, DisplayLabel), DetailsOf(edited, DisplayLabel), DisplayLabel);
    assert LabelOf(edited) == text;
    AliasIssues(data);
    AsWrittenAliasDeletesTwice(data);
  }

  /** The alias step issues its call for a persona with the alias interface, a changed label and a non-empty one. */
  lemma AliasIssues(data: SaveData)
    requires data.persona.Some? && HasAlias in data.persona.value.interfaces
    requires Changed(DetailsOf(data.stored, DisplayLabel), DetailsOf(data.edited, DisplayLabel))
    requires LabelOf(data.edited) != ""
    ensures Issues(AliasStep, data)
  {
  }

  // ---------------------------------------------------------------- the URL step as written

  /** A URL as the URL step adds it to the set: its address, before any parameter is set. */
  function BareUrl(d: Detail): FieldDetails
  {
    FieldDetails(StringField(d, UrlField), [])
  }

  /**
   * The URL set as the URL step fills it. Each URL goes into the Gee set
   * while it has no parameters, and its "type" parameters are set on the
   * element afterwards. So the set's equality test compares the bare URL
   * with the finished elements already there: an equal one keeps the new URL
   * out, and otherwise the new URL goes in and only then gets its
   * parameters, so the set can end up holding equal elements. It is a
   * multiset here.
   */
  function AsWrittenUrls(ds: seq<Detail>): multiset<FieldDetails>
    decreases |ds|
  {
    if ds == [] then multiset{}
    else
      var prev := AsWrittenUrls(ds[..|ds| - 1]);
      var d := ds[|ds| - 1];
      if !Kept(d) || BareUrl(d) in prev then prev else prev + multiset{UrlPayload(d)}
  }

  /** No two kept URL details carry the same address. */
  predicate DistinctUrls(ds: seq<Detail>)
  {
    forall i, j :: 0 <= i < j < |ds| && Kept(ds[i]) && Kept(ds[j]) ==> StringField(ds[i], UrlField) != StringField(ds[j], UrlField)
  }

  /** With distinct addresses the set as written holds each corrected element once, and nothing else. */
  lemma {:induction false} AsWrittenUrlsAgreeWhenDistinct(ds: seq<Detail>, x: FieldDetails)
    requires DistinctUrls(ds)
    ensures AsWrittenUrls(ds)[x] == (if x in Collected(ds, Kept, UrlPayload) then 1 else 0)
    decreases |ds|
  {
    if ds != [] {
      var init := ds[..|ds| - 1];
      var d := ds[|ds| - 1];
      assert DistinctUrls(init);
      AsWrittenUrlsAgreeWhenDistinct(init, x);
      if Kept(d) {
        AsWrittenUrlsAgreeWhenDistinct(init, BareUrl(d));
        AsWrittenUrlsAgreeWhenDistinct(init, UrlPayload(d));
        CollectedMeaning(init, Kept, UrlPayload, BareUrl(d));
        CollectedMeaning(init, Kept, UrlPayload, UrlPayload(d));
        assert BareUrl(d) !in Collected(init, Kept, UrlPayload) by {
          forall i | 0 <= i < |init| && Kept(init[i])
            ensures UrlPayload(init[i]) != BareUrl(d)
          {
            assert ds[i] == init[i];
          }
        }
        assert UrlPayload(d) !in Collected(init, Kept, UrlPayload) by {
          forall i | 0 <= i < |init| && Kept(init[i])
            ensures UrlPayload(init[i]) != UrlPayload(d)
          {
            assert ds[i] == init[i];
          }
        }
      }
    }
  }

  /** A URL without contexts, and the same address at home. */
  const PlainUrl: Detail := Detail(Url, map[UrlField := Str("http://x")])
  const HomeUrl: Detail := Detail(Url, map[UrlField := Str("http://x"), Context := Ints([ContextHome])])

  /**
   * A repeated address whose first copy has no contexts: the set as written
   * keeps only that first copy, so "home" is never sent, where the corrected
   * set sends both.
   */
  lemma AsWrittenUrlsDropRepeat()
    ensures AsWrittenUrls([PlainUrl, HomeUrl]) == multiset{UrlPayload(PlainUrl)}
    ensures Collected([PlainUrl, HomeUrl], Kept, UrlPayload) == {UrlPayload(PlainUrl), UrlPayload(HomeUrl)}
    ensures UrlPayload(PlainUrl) != UrlPayload(HomeUrl)
  {
    PlainUrlPayload();
    HomeUrlPayload();
    assert [PlainUrl, HomeUrl][..1] == [PlainUrl];
    assert [PlainUrl][..0] == [];
    assert AsWrittenUrls([PlainUrl]) == multiset{UrlPayload(PlainUrl)};
    assert Collected([PlainUrl], Kept, UrlPayload) == {UrlPayload(PlainUrl)};
  }

  /**
   * A repeated address with the same contexts: the set as written takes
   * both copies, since each is compared while still bare, where the
   * corrected set holds the one element once.
   */
  lemma AsWrittenUrlsKeepRepeat()
    ensures AsWrittenUrls([HomeUrl, HomeUrl]) == multiset{UrlPayload(HomeUrl), UrlPayload(HomeUrl)}
    ensures Collected([HomeUrl, HomeUrl], Kept, UrlPayload) == {UrlPayload(HomeUrl)}
  {
    PlainUrlPayload();
    HomeUrlPayload();
    assert [HomeUrl, HomeUrl][..1] == [HomeUrl];
    assert [HomeUrl][..0] == [];
    assert AsWrittenUrls([HomeUrl]) == multiset{UrlPayload(HomeUrl)};
    assert Collected([HomeUrl], Kept, UrlPayload) == {UrlPayload(HomeUrl)};
  }

  /** The plain URL's payload is bare: it has no contexts. */
  lemma PlainUrlPayload()
    ensures UrlPayload(PlainUrl) == BareUrl(PlainUrl) == BareUrl(HomeUrl)
  {
    assert IntsField(PlainUrl, Context) == [];
    assert StringField(PlainUrl, UrlField) == "http://x";
    assert StringField(HomeUrl, UrlField) == "http://x";
  }

  /** The home URL's payload carries the one "type" value "home". */
  lemma HomeUrlPayload()
    ensures UrlPayload(HomeUrl) == FieldDetails("http://x", [("type", ["home"])])
  {
    assert IntsField(HomeUrl, Context) == [ContextHome];
    assert StringField(HomeUrl, UrlField) == "http://x";
    assert ContextTags(HomeUrl) == ["home"] by {
      assert Map(ContextTag, [ContextHome])[0] == ContextTag(ContextHome) == "home";
    }
    assert AddNew([], ["home"]) == ["home"] by {
      assert ["home"][..0] == [];
      assert AddNew([], []) == [];
    }
  }

  /**
   * The corrected URL step, parameters set before the URL is added, as the
   * note, phone and e-mail steps do: the call carries each non-empty URL of
   * the edited contact with its own "type" parameters, and nothing else.
   */
  lemma UrlCallHoldsEveryUrl(c: Contact, x: FieldDetails)
    ensures CallOf(UrlsStep, c).ChangeUrls?
    ensures x in CallOf(UrlsStep, c).urls <==>
      exists i :: 0 <= i < |DetailsOf(c, Url)| && Kept(DetailsOf(c, Url)[i]) && UrlPayload(DetailsOf(c, Url)[i]) == x
  {
    CollectedMeaning(DetailsOf(c, Url), Kept, UrlPayload, x);
  }
}
