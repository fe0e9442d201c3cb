/**
 * The read side of the engine (qt-folks/managerengine.cpp): the
 * update*FromIndividual routines that project the properties of a Folks
 * individual into the details of its QContact. Each routine replaces one
 * group of details; the display label is shared by the alias and name
 * routines.
 */
module Projector {
  import opened Common
  import opened FieldTranslator
  import opened Contacts
  import opened Folks

  // ---------------------------------------------------------------- "type" parameters

  /** `acc` extended by each of `values` not yet present, in order. */
  function AddNew(acc: seq<string>, values: seq<string>): seq<string>
    decreases |values|
  {
    if values == [] then acc
    else
      var r := AddNew(acc, values[..|values| - 1]);
      var v := values[|values| - 1];
      if v in r then r else r + [v]
  }

  /** The values of the "type" parameter, each once, in first-seen order; other keys are ignored. */
  function TypeTags(parameters: Parameters): seq<string>
    decreases |parameters|
  {
    if parameters == [] then []
    else
      var r := TypeTags(parameters[..|parameters| - 1]);
      var p := parameters[|parameters| - 1];
      if p.0 == "type" then AddNew(r, p.1) else r
  }

  /** contextsFromFieldDetails: walk every key, and every value of the "type" key, keeping new values. */
  method ContextsFromFieldDetails(parameters: Parameters) returns (contexts: seq<string>)
    ensures contexts == TypeTags(parameters)
  {
    contexts := [];
    var p := 0;
    while p < |parameters|
      invariant 0 <= p <= |parameters|
      invariant contexts == TypeTags(parameters[..p])
    {
      assert parameters[..p + 1][..p] == parameters[..p];
      var key := parameters[p].0;
      if key == "type" {
        var args := parameters[p].1;
        ghost var start := contexts;
        var q := 0;
        while q < |args|
          invariant 0 <= q <= |args|
          invariant contexts == AddNew(start, args[..q])
        {
          assert args[..q + 1][..q] == args[..q];
          var context := args[q];
          if context !in contexts {
            contexts := contexts + [context];
          }
          q := q + 1;
        }
        assert args[..q] == args;
      }
      p := p + 1;
    }
    assert parameters[..p] == parameters;
  }

  predicate NoDuplicates(s: seq<string>)
  {
    forall i, j :: 0 <= i < j < |s| ==> s[i] != s[j]
  }

  /** A value of the "type" key somewhere in the parameters. */
  ghost predicate IsTypeValue(parameters: Parameters, v: string)
  {
    exists i, j :: 0 <= i < |parameters| && parameters[i].0 == "type" && 0 <= j < |parameters[i].1| && parameters[i].1[j] == v
  }

  lemma {:induction false} AddNewMeaning(acc: seq<string>, values: seq<string>)
    requires NoDuplicates(acc)
    ensures NoDuplicates(AddNew(acc, values))
    ensures forall v :: v in AddNew(acc, values) <==> v in acc || v in values
    decreases |values|
  {
    if values != [] {
      var init := values[..|values| - 1];
      AddNewMeaning(acc, init);
      assert values == init + [values[|values| - 1]];
    }
  }

  /** The context tags hold no value twice, and hold exactly the values of the "type" key. */
  lemma {:induction false} TypeTagsMeaning(parameters: Parameters)
    ensures NoDuplicates(TypeTags(parameters))
    ensures forall v :: v in TypeTags(parameters) <==> IsTypeValue(parameters, v)
    decreases |parameters|
  {
    if parameters != [] {
      var init := parameters[..|parameters| - 1];
      var last := parameters[|parameters| - 1];
      TypeTagsMeaning(init);
      var r := TypeTags(init);
      if last.0 == "type" {
        AddNewMeaning(r, last.1);
      }
      forall v
        ensures v in TypeTags(parameters) <==> IsTypeValue(parameters, v)
      {
        if IsTypeValue(parameters, v) {
          var i, j :| 0 <= i < |parameters| && parameters[i].0 == "type" && 0 <= j < |parameters[i].1| && parameters[i].1[j] == v;
          if i < |init| {
            assert init[i] == parameters[i];
            assert IsTypeValue(init, v);
          }
        }
        if IsTypeValue(init, v) {
          var i, j :| 0 <= i < |init| && init[i].0 == "type" && 0 <= j < |init[i].1| && init[i].1[j] == v;
          assert parameters[i] == init[i];
        }
        if last.0 == "type" && v in last.1 {
          var j :| 0 <= j < |last.1| && last.1[j] == v;
          assert parameters[|parameters| - 1] == last;
        }
      }
    }
  }

  lemma {:induction false} AddNewDistinct(acc: seq<string>, values: seq<string>)
    requires NoDuplicates(acc + values)
    ensures AddNew(acc, values) == acc + values
    decreases |values|
  {
    if values != [] {
      var init := values[..|values| - 1];
      var v := values[|values| - 1];
      var all := acc + values;
      assert all == (acc + init) + [v];
      forall i, j | 0 <= i < j < |acc + init|
        ensures (acc + init)[i] != (acc + init)[j]
      {
        assert (acc + init)[i] == all[i] && (acc + init)[j] == all[j];
      }
      AddNewDistinct(acc, init);
      forall i | 0 <= i < |acc + init|
        ensures (acc + init)[i] != v
      {
        assert (acc + init)[i] == all[i] && v == all[|all| - 1];
      }
    }
  }

  /** A single "type" key whose values are distinct yields those values, in order. */
  lemma TypeTagsOfDistinct(values: seq<string>)
    requires NoDuplicates(values)
    ensures TypeTags([("type", values)]) == values
  {
    var parameters := [("type", values)];
    assert parameters[..0] == [];
    AddNewDistinct([], values);
  }

  /** setContextsFromFieldDetails: the contexts named by the "type" tags. */
  function ContextsOf(parameters: Parameters): seq<int>
  {
    FilterMap(ContextCode, TypeTags(parameters))
  }

  // ---------------------------------------------------------------- one detail per Folks value

  function EmailDetail(fd: FieldDetails): Detail
  {
    Detail(EmailAddress, map[EmailField := Str(fd.value), Context := Ints(ContextsOf(fd.parameters))])
  }

  function NoteDetail(fd: FieldDetails): Detail
  {
    Detail(Note, map[NoteField := Str(fd.value), Context := Ints(ContextsOf(fd.parameters))])
  }

  function UrlDetail(fd: FieldDetails): Detail
  {
    Detail(Url, map[UrlField := Str(fd.value), Context := Ints(ContextsOf(fd.parameters))])
  }

  /** A phone number: the "type" tags give both the contexts and the phone sub-types. */
  function PhoneDetail(fd: FieldDetails): Detail
  {
    var tags := TypeTags(fd.parameters);
    Detail(PhoneNumber, map[NumberField := Str(fd.value), Context := Ints(FilterMap(ContextCode, tags)),
                            SubTypes := Ints(FilterMap(PhoneSubTypeCode, tags))])
  }

  /** An online account: the multimap key names the protocol, the "type" tags give contexts and sub-types. */
  function ImDetail(protocol: string, fd: FieldDetails): Detail
  {
    var tags := TypeTags(fd.parameters);
    Detail(OnlineAccount, map[AccountUri := Str(fd.value), ProtocolField := ProtocolValue(ProtocolFromString(protocol)),
                              Context := Ints(FilterMap(ContextCode, tags)),
                              SubTypes := Ints(FilterMap(AccountSubTypeCode, tags))])
  }

  function OrganizationDetail(rfd: RoleFieldDetails): Detail
  {
    Detail(Organization, map[OrgName := Str(rfd.role.organisationName), Title := Str(rfd.role.title),
                             Context := Ints(ContextsOf(rfd.parameters))])
  }

  function AddressDetail(afd: PostalAddressFieldDetails): Detail
  {
    var a := afd.address;
    var tags := TypeTags(afd.parameters);
    Detail(Address, map[Country := Str(a.country), Locality := Str(a.locality), PostOfficeBox := Str(a.poBox),
                        Postcode := Str(a.postalCode), Region := Str(a.region), Street := Str(a.street),
                        Context := Ints(FilterMap(ContextCode, tags)),
                        SubTypes := Ints(FilterMap(AddressSubTypeCode, tags))])
  }

  /** The accounts saved for the values of one protocol key, in order. */
  function AccountsFor(protocol: string, values: seq<FieldDetails>): (r: seq<Detail>)
    ensures AllOfKind(r, OnlineAccount)
    decreases |values|
  {
    if values == [] then []
    else AccountsFor(protocol, values[..|values| - 1]) + [ImDetail(protocol, values[|values| - 1])]
  }

  /** One online account per value of each protocol key, keys in order. */
  function ImDetails(imAddresses: seq<(string, seq<FieldDetails>)>): (r: seq<Detail>)
    ensures AllOfKind(r, OnlineAccount)
    decreases |imAddresses|
  {
    if imAddresses == [] then []
    else
      var last := imAddresses[|imAddresses| - 1];
      ImDetails(imAddresses[..|imAddresses| - 1]) + AccountsFor(last.0, last.1)
  }

  /** folksToQtPresence */
  function FolksToQtPresence(fp: PresenceType): PresenceStateValue
  {
    match fp
    case FolksOffline => PresenceOffline
    case FolksAvailable => PresenceAvailable
    case FolksAway => PresenceAway
    case FolksExtendedAway => PresenceExtendedAway
    case FolksHidden => PresenceHidden
    case FolksBusy => PresenceBusy
    case _ => PresenceUnknown
  }

  /** setPresenceDetail: a presence detail exactly when the presence type is set. */
  function PresenceDetail(individual: Individual): Option<Detail>
  {
    if individual.presenceType != FolksUnset then
      Some(Detail(GlobalPresence, map[CustomMessage := Str(individual.presenceMessage),
                                      PresenceState := PresenceValue(FolksToQtPresence(individual.presenceType)),
                                      PresenceNickname := Str(individual.alias.GetOr(""))]))
    else None
  }

  /** QString::split(' ') with empty parts kept. */
  function SplitOnSpace(s: string): (parts: seq<string>)
    ensures |parts| >= 1
    decreases |s|
  {
    if s == [] then [""]
    else
      var rest := SplitOnSpace(s[1..]);
      if s[0] == ' ' then [""] + rest else [[s[0]] + rest[0]] + rest[1..]
  }

  /** The parts joined back with single spaces. */
  function JoinWithSpace(parts: seq<string>): string
    requires |parts| >= 1
    decreases |parts|
  {
    if |parts| == 1 then parts[0] else parts[0] + " " + JoinWithSpace(parts[1..])
  }

  /** The name detail built from a full name: two space-separated parts become first and last name, anything else is all first name. */
  function NameDetail(fullName: string): Detail
  {
    var names := SplitOnSpace(fullName);
    if |names| == 2 then Detail(Name, map[FirstName := Str(names[0]), LastName := Str(names[1])])
    else Detail(Name, map[FirstName := Str(fullName)])
  }

  // ---------------------------------------------------------------- the groups

  /** The individual's properties a notify callback is connected to, in the order addIndividual projects them. */
  datatype Property =
    | AliasChanged | StructuredNameChanged | FullNameChanged | NicknameChanged | PresenceChanged
    | BirthdayChanged | EmailAddressesChanged | ImAddressesChanged | FavouriteChanged | GenderChanged
    | NotesChanged | RolesChanged | PhoneNumbersChanged | PostalAddressesChanged | UrlsChanged | AvatarChanged

  /** The detail type a property's routine rebuilds; the alias routine only touches the label. */
  function GroupKind(p: Property): DetailKind
  {
    match p
    case AliasChanged => DisplayLabel
    case StructuredNameChanged => Name
    case FullNameChanged => Name
    case NicknameChanged => Nickname
    case PresenceChanged => GlobalPresence
    case BirthdayChanged => Birthday
    case EmailAddressesChanged => EmailAddress
    case ImAddressesChanged => OnlineAccount
    case FavouriteChanged => Favorite
    case GenderChanged => Gender
    case NotesChanged => Note
    case RolesChanged => Organization
    case PhoneNumbersChanged => PhoneNumber
    case PostalAddressesChanged => Address
    case UrlsChanged => Url
    case AvatarChanged => Avatar
  }

  /** Does the routine for `p` also rewrite the display label? */
  predicate SetsLabel(p: Property)
  {
    p == AliasChanged || p == StructuredNameChanged || p == FullNameChanged
  }

  /** The details a property's routine leaves in its group, whatever the group held before. */
  function Group(p: Property, individual: Individual): seq<Detail>
  {
    match p
    case AliasChanged => []
    case StructuredNameChanged => if individual.fullName.Some? then [NameDetail(individual.fullName.value)] else []
    case FullNameChanged => if individual.fullName.Some? then [NameDetail(individual.fullName.value)] else []
    case NicknameChanged =>
      if Usable(individual.nickname) then [Detail(Nickname, map[NicknameField := Str(individual.nickname.value)])] else []
    case PresenceChanged => if PresenceDetail(individual).Some? then [PresenceDetail(individual).value] else []
    case BirthdayChanged =>
      if individual.birthday.Some? then [Detail(Birthday, map[BirthdayField := Moment(AsTimeT(individual.birthday.value))])] else []
    case EmailAddressesChanged => Map(EmailDetail, individual.emailAddresses)
    case ImAddressesChanged => ImDetails(individual.imAddresses)
    case FavouriteChanged => [Detail(Favorite, map[FavoriteField := Flag(individual.isFavourite)])]
    case GenderChanged =>
      // The contexts are read through a cast of the individual to field details, which it is not; they are taken as none.
      (match individual.gender
       case FolksFemale => [Detail(Gender, map[GenderField := GenderValue(GenderFemale), Context := Ints([])])]
       case FolksMale => [Detail(Gender, map[GenderField := GenderValue(GenderMale), Context := Ints([])])]
       case FolksUnspecified => [])
    case NotesChanged => Map(NoteDetail, individual.notes)
    case RolesChanged => Map(OrganizationDetail, individual.roles)
    case PhoneNumbersChanged => Map(PhoneDetail, individual.phoneNumbers)
    case PostalAddressesChanged => Map(AddressDetail, individual.postalAddresses)
    case UrlsChanged => Map(UrlDetail, individual.urls)
    case AvatarChanged =>
      match individual.avatar
      case NoAvatar => []
      case FileIcon(uri) => [Detail(Avatar, map[ImageUrl := Link(uri)])]
      case LoadableIcon(uri, cached) => if cached then [Detail(Avatar, map[ImageUrl := Link(uri)])] else []
  }

  /**
   * The seconds QDateTime::setTime_t keeps of g_date_time_to_unix's gint64:
   * the parameter is a uint, so the value is taken modulo 2^32.
   */
  function AsTimeT(unixSeconds: int): (t: int)
    ensures 0 <= t < 0x1_0000_0000 && (unixSeconds - t) % 0x1_0000_0000 == 0
    ensures 0 <= unixSeconds < 0x1_0000_0000 ==> t == unixSeconds
  {
    unixSeconds % 0x1_0000_0000
  }

  /** The label updateDisplayLabelFromIndividual chooses: a usable nickname, else a usable alias, else none. */
  function AliasLabel(individual: Individual): Option<string>
  {
    if Usable(individual.nickname) then individual.nickname
    else if Usable(individual.alias) then individual.alias
    else None
  }

  /** The contact after the routine for `p` ran on it. */
  function Update(p: Property, c: Contact, individual: Individual): Contact
  {
    if p == AliasChanged then
      (if AliasLabel(individual).Some? then SetLabel(c, AliasLabel(individual).value) else c)
    else if p == StructuredNameChanged || p == FullNameChanged then
      var cleared := c.(details := WithoutKind(c.details, Name));
      if individual.fullName.Some? then
        var labelled := SetLabel(cleared, individual.fullName.value);
        labelled.(details := labelled.details + [NameDetail(individual.fullName.value)])
      else cleared
    else ReplaceGroup(c, GroupKind(p), Group(p, individual))
  }

  /** The avatar file updateAvatarFromIndividual asks the cache to store, when it is not there yet. */
  function AvatarPending(individual: Individual): Option<string>
  {
    match individual.avatar
    case LoadableIcon(uri, cached) => if cached then None else Some(uri)
    case _ => None
  }

  // ---------------------------------------------------------------- the routines

  /** The save loop of every routine: append one detail per Folks value, in order. */
  method SaveEach<T>(contact: Contact, values: seq<T>, make: T -> Detail) returns (c: Contact)
    ensures c == contact.(details := contact.details + Map(make, values))
  {
    c := contact;
    var i := 0;
    while i < |values|
      invariant 0 <= i <= |values|
      invariant c == contact.(details := contact.details + Map(make, values[..i]))
    {
      assert Map(make, values[..i + 1]) == Map(make, values[..i]) + [make(values[i])];
      c := c.(details := c.details + [make(values[i])]);
      i := i + 1;
    }
    assert values[..i] == values;
  }

  method UpdateEmailAddresses(contact: Contact, individual: Individual) returns (c: Contact)
    ensures c == Update(EmailAddressesChanged, contact, individual)
  {
    c := RemoveOldDetails(contact, EmailAddress);
    c := SaveEach(c, individual.emailAddresses, EmailDetail);
  }

  method UpdateNotes(contact: Contact, individual: Individual) returns (c: Contact)
    ensures c == Update(NotesChanged, contact, individual)
  {
    c := RemoveOldDetails(contact, Note);
    c := SaveEach(c, individual.notes, NoteDetail);
  }

  method UpdateUrls(contact: Contact, individual: Individual) returns (c: Contact)
    ensures c == Update(UrlsChanged, contact, individual)
  {
    c := RemoveOldDetails(contact, Url);
    c := SaveEach(c, individual.urls, UrlDetail);
  }

  method UpdatePhoneNumbers(contact: Contact, individual: Individual) returns (c: Contact)
    ensures c == Update(PhoneNumbersChanged, contact, individual)
  {
    c := RemoveOldDetails(contact, PhoneNumber);
    c := SaveEach(c, individual.phoneNumbers, PhoneDetail);
  }

  method UpdateOrganization(contact: Contact, individual: Individual) returns (c: Contact)
    ensures c == Update(RolesChanged, contact, individual)
  {
    c := RemoveOldDetails(contact, Organization);
    c := SaveEach(c, individual.roles, OrganizationDetail);
  }

  method UpdateAddresses(contact: Contact, individual: Individual) returns (c: Contact)
    ensures c == Update(PostalAddressesChanged, contact, individual)
  {
    c := RemoveOldDetails(contact, Address);
    c := SaveEach(c, individual.postalAddresses, AddressDetail);
  }

  /** updateImAddressesFromIndividual: one account per value of each protocol key. */
  method UpdateImAddresses(contact: Contact, individual: Individual) returns (c: Contact)
    ensures c == Update(ImAddressesChanged, contact, individual)
  {
    c := RemoveOldDetails(contact, OnlineAccount);
    c := SaveAccounts(c, individual.imAddresses);
  }

  /** The key loop of updateImAddressesFromIndividual. */
  method SaveAccounts(contact: Contact, ims: seq<(string, seq<FieldDetails>)>) returns (c: Contact)
    ensures c == contact.(details := contact.details + ImDetails(ims))
  {
    c := contact;
    var k := 0;
    while k < |ims|
      invariant 0 <= k <= |ims|
      invariant c == contact.(details := contact.details + ImDetails(ims[..k]))
    {
      ImDetailsStep(ims, k);
      c := SaveAccountsFor(c, ims[k].0, ims[k].1);
      assert c.details == contact.details + ImDetails(ims[..k]) + AccountsFor(ims[k].0, ims[k].1);
      k := k + 1;
    }
    assert ims[..k] == ims;
  }

  lemma ImDetailsStep(ims: seq<(string, seq<FieldDetails>)>, k: nat)
    requires k < |ims|
    ensures ImDetails(ims[..k + 1]) == ImDetails(ims[..k]) + AccountsFor(ims[k].0, ims[k].1)
  {
    assert ims[..k + 1][..k] == ims[..k];
  }

  /** The value loop of updateImAddressesFromIndividual: one account per value of a protocol key. */
  method SaveAccountsFor(contact: Contact, protocol: string, values: seq<FieldDetails>) returns (c: Contact)
    ensures c == contact.(details := contact.details + AccountsFor(protocol, values))
  {
    c := contact;
    var q := 0;
    while q < |values|
      invariant 0 <= q <= |values|
      invariant c == contact.(details := contact.details + AccountsFor(protocol, values[..q]))
    {
      assert values[..q + 1][..q] == values[..q];
      c := c.(details := c.details + [ImDetail(protocol, values[q])]);
      q := q + 1;
    }
    assert values[..q] == values;
  }

  method UpdateFavorite(contact: Contact, individual: Individual) returns (c: Contact)
    ensures c == Update(FavouriteChanged, contact, individual)
  {
    c := RemoveOldDetails(contact, Favorite);
    c := c.(details := c.details + [Detail(Favorite, map[FavoriteField := Flag(individual.isFavourite)])]);
  }

  method UpdateGender(contact: Contact, individual: Individual) returns (c: Contact)
    ensures c == Update(GenderChanged, contact, individual)
  {
    c := RemoveOldDetails(contact, Gender);
    var gender;
    match individual.gender {
      case FolksFemale => gender := GenderFemale;
      case FolksMale => gender := GenderMale;
      case FolksUnspecified => return;
    }
    c := c.(details := c.details + [Detail(Gender, map[GenderField := GenderValue(gender), Context := Ints([])])]);
  }

  method UpdateBirthday(contact: Contact, individual: Individual) returns (c: Contact)
    ensures c == Update(BirthdayChanged, contact, individual)
  {
    c := RemoveOldDetails(contact, Birthday);
    if individual.birthday.Some? {
      c := c.(details := c.details + [Detail(Birthday, map[BirthdayField := Moment(AsTimeT(individual.birthday.value))])]);
    }
  }

  method UpdateNickname(contact: Contact, individual: Individual) returns (c: Contact)
    ensures c == Update(NicknameChanged, contact, individual)
  {
    c := RemoveOldDetails(contact, Nickname);
    if individual.nickname.Some? && individual.nickname.value != "" {
      c := c.(details := c.details + [Detail(Nickname, map[NicknameField := Str(individual.nickname.value)])]);
    }
  }

  method UpdatePresence(contact: Contact, individual: Individual) returns (c: Contact)
    ensures c == Update(PresenceChanged, contact, individual)
  {
    c := RemoveOldDetails(contact, GlobalPresence);
    var presence := PresenceDetail(individual);
    if presence.Some? {
      c := c.(details := c.details + [presence.value]);
    }
  }

  /** updateAvatarFromIndividual; also returns the avatar URI whose asynchronous caching it starts, if any. */
  method UpdateAvatar(contact: Contact, individual: Individual) returns (c: Contact, pending: Option<string>)
    ensures c == Update(AvatarChanged, contact, individual)
    ensures pending == AvatarPending(individual)
  {
    c := RemoveOldDetails(contact, Avatar);
    pending := None;
    match individual.avatar {
      case NoAvatar =>
      case FileIcon(uri) =>
        c := c.(details := c.details + [Detail(Avatar, map[ImageUrl := Link(uri)])]);
      case LoadableIcon(uri, cached) =>
        if cached {
          c := c.(details := c.details + [Detail(Avatar, map[ImageUrl := Link(uri)])]);
        } else {
          pending := Some(uri);
        }
    }
  }

  /** updateNameFromIndividual, which both structured-name and full-name changes run. */
  method UpdateName(contact: Contact, individual: Individual) returns (c: Contact)
    ensures c == Update(FullNameChanged, contact, individual)
    ensures c == Update(StructuredNameChanged, contact, individual)
  {
    c := RemoveOldDetails(contact, Name);
    if individual.fullName.Some? {
      c := SetLabel(c, individual.fullName.value);
      c := c.(details := c.details + [NameDetail(individual.fullName.value)]);
    }
  }

  /** updateDisplayLabelFromIndividual, which the alias routine runs. */
  method UpdateDisplayLabel(contact: Contact, individual: Individual) returns (c: Contact)
    ensures c == Update(AliasChanged, contact, individual)
  {
    var displayLabel := individual.nickname;
    if displayLabel.None? || displayLabel.value == "" {
      displayLabel := individual.alias;
      if displayLabel.None? || displayLabel.value == "" {
        return contact;
      }
    }
    c := SetLabel(contact, displayLabel.value);
  }

  /** The routine connected to a property's notify signal. */
  method ApplyUpdate(p: Property, contact: Contact, individual: Individual) returns (c: Contact, pending: Option<string>)
    ensures c == Update(p, contact, individual)
    ensures pending == if p == AvatarChanged then AvatarPending(individual) else None
  {
    pending := None;
    match p {
      case AliasChanged => c := UpdateDisplayLabel(contact, individual);
      case StructuredNameChanged => c := UpdateName(contact, individual);
      case FullNameChanged => c := UpdateName(contact, individual);
      case NicknameChanged => c := UpdateNickname(contact, individual);
      case PresenceChanged => c := UpdatePresence(contact, individual);
      case BirthdayChanged => c := UpdateBirthday(contact, individual);
      case EmailAddressesChanged => c := UpdateEmailAddresses(contact, individual);
      case ImAddressesChanged => c := UpdateImAddresses(contact, individual);
      case FavouriteChanged => c := UpdateFavorite(contact, individual);
      case GenderChanged => c := UpdateGender(contact, individual);
      case NotesChanged => c := UpdateNotes(contact, individual);
      case RolesChanged => c := UpdateOrganization(contact, individual);
      case PhoneNumbersChanged => c := UpdatePhoneNumbers(contact, individual);
      case PostalAddressesChanged => c := UpdateAddresses(contact, individual);
      case UrlsChanged => c := UpdateUrls(contact, individual);
      case AvatarChanged => c, pending := UpdateAvatar(contact, individual);
    }
  }

  // ---------------------------------------------------------------- what the routines promise

  lemma GroupKinds(p: Property, individual: Individual)
    ensures AllOfKind(Group(p, individual), GroupKind(p))
  {
  }

  lemma OnlyAliasGroupIsLabel(p: Property)
    ensures GroupKind(p) == DisplayLabel <==> p == AliasChanged
  {
  }

  /** Every routine other than the name and label ones replaces exactly its group and keeps the rest. */
  lemma UpdateReplacesGroup(p: Property, c: Contact, individual: Individual)
    requires !SetsLabel(p)
    ensures DetailsOf(Update(p, c, individual), GroupKind(p)) == Group(p, individual)
    ensures forall k :: k != GroupKind(p) ==> DetailsOf(Update(p, c, individual), k) == DetailsOf(c, k)
    ensures Update(p, c, individual).id == c.id && Update(p, c, individual).collectionId == c.collectionId
  {
    GroupKinds(p, individual);
    ReplaceGroupContents(c, GroupKind(p), Group(p, individual));
  }

  /**
   * The name routine: with a full name the label becomes it and one name
   * detail built from it remains; without one no name detail remains. Nothing
   * else changes.
   */
  lemma NameUpdateEffect(c: Contact, individual: Individual)
    ensures individual.fullName.Some? ==>
      DetailsOf(Update(FullNameChanged, c, individual), Name) == [NameDetail(individual.fullName.value)] &&
      LabelOf(Update(FullNameChanged, c, individual)) == individual.fullName.value
    ensures individual.fullName.None? ==>
      DetailsOf(Update(FullNameChanged, c, individual), Name) == [] &&
      DetailsOf(Update(FullNameChanged, c, individual), DisplayLabel) == DetailsOf(c, DisplayLabel)
    ensures forall k :: k != Name && k != DisplayLabel ==> DetailsOf(Update(FullNameChanged, c, individual), k) == DetailsOf(c, k)
    ensures Update(FullNameChanged, c, individual).id == c.id
  {
    var cleared := c.(details := WithoutKind(c.details, Name));
    forall k ensures DetailsOf(cleared, k) == if k == Name then [] else DetailsOf(c, k) {
      OfKindWithout(c.details, Name, k);
    }
    if individual.fullName.Some? {
      var fn := individual.fullName.value;
      var labelled := SetLabel(cleared, fn);
      SetLabelEffect(cleared, fn);
      var r := labelled.(details := labelled.details + [NameDetail(fn)]);
      assert r == Update(FullNameChanged, c, individual);
      forall k ensures DetailsOf(r, k) == DetailsOf(labelled, k) + OfKind([NameDetail(fn)], k) {
        OfKindAppend(labelled.details, [NameDetail(fn)], k);
      }
      assert OfKind([NameDetail(fn)], DisplayLabel) == [];
      assert DetailsOf(r, DisplayLabel) == DetailsOf(labelled, DisplayLabel);
      assert FirstOf(r, DisplayLabel) == FirstOf(labelled, DisplayLabel);
      assert OfKind([NameDetail(fn)], Name) == [NameDetail(fn)];
    }
  }

  /** The alias routine: the label becomes the chosen nickname or alias, or the contact is left as it was. */
  lemma AliasUpdateEffect(c: Contact, individual: Individual)
    ensures AliasLabel(individual).Some? ==> LabelOf(Update(AliasChanged, c, individual)) == AliasLabel(individual).value
    ensures AliasLabel(individual).None? ==> Update(AliasChanged, c, individual) == c
    ensures forall k :: k != DisplayLabel ==> DetailsOf(Update(AliasChanged, c, individual), k) == DetailsOf(c, k)
    ensures Update(AliasChanged, c, individual).id == c.id
  {
    if AliasLabel(individual).Some? {
      SetLabelEffect(c, AliasLabel(individual).value);
    }
  }

  /** A routine touches only its own group, the label for the name and alias routines, and never the ids. */
  lemma UpdateFrame(p: Property, c: Contact, individual: Individual, k: DetailKind)
    requires k != GroupKind(p) && !(SetsLabel(p) && k == DisplayLabel)
    ensures DetailsOf(Update(p, c, individual), k) == DetailsOf(c, k)
    ensures Update(p, c, individual).id == c.id && Update(p, c, individual).collectionId == c.collectionId
  {
    if p == AliasChanged {
      AliasUpdateEffect(c, individual);
    } else if p == StructuredNameChanged || p == FullNameChanged {
      NameUpdateEffect(c, individual);
    } else {
      UpdateReplacesGroup(p, c, individual);
    }
  }

  /** Re-running a routine on an unchanged individual changes nothing more. */
  lemma UpdateIdempotent(p: Property, c: Contact, individual: Individual)
    ensures Update(p, Update(p, c, individual), individual) == Update(p, c, individual)
  {
    if p == AliasChanged {
      if AliasLabel(individual).Some? {
        SetLabelIdempotent(c, AliasLabel(individual).value);
      }
    } else if p == StructuredNameChanged || p == FullNameChanged {
      var cleared := c.(details := WithoutKind(c.details, Name));
      if individual.fullName.Some? {
        var fn := individual.fullName.value;
        var labelled := SetLabel(cleared, fn);
        var once := labelled.(details := labelled.details + [NameDetail(fn)]);
        SetLabelKinds(cleared, fn, Name);
        WithoutKindAppend(labelled.details, [NameDetail(fn)], Name);
        WithoutKindNone(labelled.details, Name);
        assert WithoutKind([NameDetail(fn)], Name) == [];
        assert once.(details := WithoutKind(once.details, Name)) == labelled;
        SetLabelIdempotent(cleared, fn);
      } else {
        WithoutKindTwice(c.details, Name);
      }
    } else {
      GroupKinds(p, individual);
      ReplaceGroupIdempotent(c, GroupKind(p), Group(p, individual));
    }
  }

  // ---------------------------------------------------------------- presence and names

  /** Unset, unknown and error all read as PresenceUnknown; the other six presence types stay apart. */
  lemma PresenceMapping(a: PresenceType, b: PresenceType)
    ensures FolksToQtPresence(a) == PresenceUnknown <==> a == FolksUnset || a == FolksUnknown || a == FolksError
    ensures FolksToQtPresence(a) == FolksToQtPresence(b) && FolksToQtPresence(a) != PresenceUnknown ==> a == b
  {
  }

  /** The presence detail exists exactly when the presence type is set, and carries the message and the alias. */
  lemma PresenceDetailMeaning(individual: Individual)
    ensures PresenceDetail(individual).Some? <==> individual.presenceType != FolksUnset
    ensures PresenceDetail(individual).Some? ==>
      StringField(PresenceDetail(individual).value, CustomMessage) == individual.presenceMessage &&
      StringField(PresenceDetail(individual).value, PresenceNickname) == (if individual.alias.Some? then individual.alias.value else "")
  {
  }

  /** The favourite group always holds one detail; gender, presence and nickname groups hold one only when there is a value to show. */
  lemma GroupRules(individual: Individual)
    ensures |Group(FavouriteChanged, individual)| == 1
    ensures Group(FavouriteChanged, individual)[0].fields[FavoriteField] == Flag(individual.isFavourite)
    ensures |Group(GenderChanged, individual)| <= 1
    ensures Group(GenderChanged, individual) != [] <==> individual.gender != FolksUnspecified
    ensures Group(GenderChanged, individual) != [] ==>
      Group(GenderChanged, individual)[0].fields[GenderField] ==
        GenderValue(if individual.gender == FolksMale then GenderMale else GenderFemale)
    ensures |Group(PresenceChanged, individual)| <= 1
    ensures Group(PresenceChanged, individual) != [] <==> individual.presenceType != FolksUnset
    ensures |Group(NicknameChanged, individual)| <= 1
    ensures Group(NicknameChanged, individual) != [] <==> Usable(individual.nickname)
  {
  }
  /**
   * The birthday group: one detail exactly when the individual has a
   * birthday, holding its seconds as a uint. Seconds from 1970 to early 2106
   * are kept; any other value, a birthday before 1970 among them, comes out
   * a whole number of 2^32 seconds away.
   */
  lemma BirthdayGroupMeaning(individual: Individual)
    ensures Group(BirthdayChanged, individual) != [] <==> individual.birthday.Some?
    ensures individual.birthday.Some? ==>
      var b := individual.birthday.value;
      |Group(BirthdayChanged, individual)| == 1 &&
      Group(BirthdayChanged, individual)[0].fields[BirthdayField].Moment? &&
      var t := Group(BirthdayChanged, individual)[0].fields[BirthdayField].unixSeconds;
      0 <= t < 0x1_0000_0000 && (b - t) % 0x1_0000_0000 == 0 && (t == b <==> 0 <= b < 0x1_0000_0000)
  {
  }

  /** The last day of 1969, -86400 seconds, is shown as 4294880896 seconds: a day in February 2106. */
  lemma PreEpochBirthdayWraps(individual: Individual)
    requires individual.birthday == Some(-86400)
    ensures Group(BirthdayChanged, individual) == [Detail(Birthday, map[BirthdayField := Moment(4294880896)])]
  {
  }


  /** Splitting on spaces loses nothing: the parts hold no space and join back to the string. */
  lemma {:induction false} SplitJoinsBack(s: string)
    ensures JoinWithSpace(SplitOnSpace(s)) == s
    ensures forall i :: 0 <= i < |SplitOnSpace(s)| ==> ' ' !in SplitOnSpace(s)[i]
    decreases |s|
  {
    if s != [] {
      SplitJoinsBack(s[1..]);
      var rest := SplitOnSpace(s[1..]);
      if s[0] == ' ' {
        assert SplitOnSpace(s) == [""] + rest;
        assert ([""] + rest)[1..] == rest;
        assert s == [s[0]] + s[1..];
      } else {
        var parts := SplitOnSpace(s);
        assert parts == [[s[0]] + rest[0]] + rest[1..];
        assert parts[1..] == rest[1..];
        if |rest| > 1 {
          assert JoinWithSpace(rest) == rest[0] + " " + JoinWithSpace(rest[1..]);
        }
        assert s == [s[0]] + s[1..];
        forall i | 0 <= i < |parts|
          ensures ' ' !in parts[i]
        {
          if i > 0 {
            assert parts[i] == rest[i];
          }
        }
      }
    }
  }

  /**
   * The name detail from a full name: either a first and a last name with no
   * space in them that join back to the full name, or the full name as the
   * first name.
   */
  lemma NameDetailMeaning(fullName: string)
    ensures LastName in NameDetail(fullName).fields ==>
      var first := StringField(NameDetail(fullName), FirstName);
      var last := StringField(NameDetail(fullName), LastName);
      first + " " + last == fullName && ' ' !in first && ' ' !in last
    ensures LastName !in NameDetail(fullName).fields ==> StringField(NameDetail(fullName), FirstName) == fullName
  {
    SplitJoinsBack(fullName);
    var names := SplitOnSpace(fullName);
    if |names| == 2 {
      assert JoinWithSpace(names[1..]) == names[1];
    }
  }

  /** A full name with exactly one space splits into first and last name. */
  lemma TwoWordName(first: string, last: string)
    requires ' ' !in first && ' ' !in last
    ensures StringField(NameDetail(first + " " + last), FirstName) == first
    ensures StringField(NameDetail(first + " " + last), LastName) == last
  {
    SplitOfSpaceFree(last);
    SplitAround(first, last);
  }

  lemma {:induction false} SplitOfSpaceFree(s: string)
    requires ' ' !in s
    ensures SplitOnSpace(s) == [s]
    decreases |s|
  {
    if s != [] {
      assert s[0] in s;
      assert forall c :: c in s[1..] ==> c in s;
      SplitOfSpaceFree(s[1..]);
      assert [s[0]] + s[1..] == s;
    }
  }

  lemma {:induction false} SplitAround(first: string, last: string)
    requires ' ' !in first && SplitOnSpace(last) == [last]
    ensures SplitOnSpace(first + " " + last) == [first, last]
    decreases |first|
  {
    if first == [] {
      assert first + " " + last == [' '] + last;
      assert ([' '] + last)[1..] == last;
    } else {
      assert first[0] in first;
      assert forall c :: c in first[1..] ==> c in first;
      SplitAround(first[1..], last);
      var s := first + " " + last;
      assert s[0] == first[0] && s[1..] == first[1..] + " " + last;
      assert [first[0]] + first[1..] == first;
    }
  }

  // ---------------------------------------------------------------- a newly added individual

  /** dbIdToByteArray: the local id of a contact, or of a collection. */
  function DbIdToByteArray(dbId: uint32, isCollection: bool): string
  {
    (if isCollection then "col-" else "sql-") + Decimal(dbId)
  }

  /** Distinct numbers, or a contact and a collection, never share an id. */
  lemma DbIdsDistinct(a: uint32, aIsCollection: bool, b: uint32, bIsCollection: bool)
    ensures DbIdToByteArray(a, aIsCollection) == DbIdToByteArray(b, bIsCollection) <==> a == b && aIsCollection == bIsCollection
  {
    var x := DbIdToByteArray(a, aIsCollection);
    var y := DbIdToByteArray(b, bIsCollection);
    if x == y {
      assert x[..4] == (if aIsCollection then "col-" else "sql-");
      assert y[..4] == (if bIsCollection then "col-" else "sql-");
      assert aIsCollection == bIsCollection;
      var p := if aIsCollection then "col-" else "sql-";
      PrefixCancel(p, Decimal(a), Decimal(b));
      DecimalInjective(a, b);
    }
  }

  /** The contact addIndividual starts from: its id from the hash of the Folks id, collection 1, and a contact type. */
  function NewContact(managerUri: string, hash: uint32): Contact
  {
    Contact(ContactId(managerUri, DbIdToByteArray(hash, false)), ContactId(managerUri, DbIdToByteArray(1, true)),
            [ContactTypeDetail])
  }

  /** The order in which addIndividual runs the routines. */
  const AddOrder: seq<Property> :=
    [AliasChanged, StructuredNameChanged, FullNameChanged, NicknameChanged, PresenceChanged, BirthdayChanged,
     EmailAddressesChanged, ImAddressesChanged, FavouriteChanged, GenderChanged, NotesChanged, RolesChanged,
     PhoneNumbersChanged, PostalAddressesChanged, UrlsChanged, AvatarChanged]

  /** The routines for `ps` run in turn. */
  function ApplyAll(c: Contact, ps: seq<Property>, individual: Individual): Contact
    decreases |ps|
  {
    if ps == [] then c else Update(ps[|ps| - 1], ApplyAll(c, ps[..|ps| - 1], individual), individual)
  }

  lemma ApplyAllStep(c: Contact, ps: seq<Property>, k: nat, individual: Individual)
    requires k < |ps|
    ensures ApplyAll(c, ps[..k + 1], individual) == Update(ps[k], ApplyAll(c, ps[..k], individual), individual)
  {
    assert ps[..k + 1][..k] == ps[..k];
  }

  /** The contact addIndividual builds: the new contact after every routine, in AddOrder. */
  function Materialized(managerUri: string, hash: uint32, individual: Individual): Contact
  {
    ApplyAll(NewContact(managerUri, hash), AddOrder, individual)
  }

  /**
   * The connect-and-update pairs of addIndividual, one per property of `ps`;
   * the avatar routine's caching request is passed on.
   */
  method RunRoutines(contact: Contact, ps: seq<Property>, individual: Individual) returns (c: Contact, pending: Option<string>)
    ensures c == ApplyAll(contact, ps, individual)
    ensures pending == if AvatarChanged in ps then AvatarPending(individual) else None
  {
    c := contact;
    pending := None;
    var i := 0;
    while i < |ps|
      invariant 0 <= i <= |ps|
      invariant c == ApplyAll(contact, ps[..i], individual)
      invariant pending == if AvatarChanged in ps[..i] then AvatarPending(individual) else None
    {
      ApplyAllStep(contact, ps, i, individual);
      var started;
      c, started := ApplyUpdate(ps[i], c, individual);
      if ps[i] == AvatarChanged {
        pending := started;
      }
      i := i + 1;
    }
    assert ps[..i] == ps;
  }

  /** addIndividual's projection of a new individual, and the avatar whose caching it starts. */
  method Materialize(managerUri: string, hash: uint32, individual: Individual) returns (c: Contact, pending: Option<string>)
    ensures c == Materialized(managerUri, hash, individual)
    ensures pending == AvatarPending(individual)
  {
    assert AddOrder[15] == AvatarChanged;
    c, pending := RunRoutines(NewContact(managerUri, hash), AddOrder, individual);
  }

  /** Routines that touch neither `k` nor, when `k` is the label, the label leave `k` alone. */
  lemma {:induction false} ApplyAllFrame(c: Contact, ps: seq<Property>, individual: Individual, k: DetailKind)
    requires forall j :: 0 <= j < |ps| ==> k != GroupKind(ps[j]) && !(SetsLabel(ps[j]) && k == DisplayLabel)
    ensures DetailsOf(ApplyAll(c, ps, individual), k) == DetailsOf(c, k)
    ensures ApplyAll(c, ps, individual).id == c.id && ApplyAll(c, ps, individual).collectionId == c.collectionId
    decreases |ps|
  {
    if ps != [] {
      ApplyAllFrame(c, ps[..|ps| - 1], individual, k);
      UpdateFrame(ps[|ps| - 1], ApplyAll(c, ps[..|ps| - 1], individual), individual, k);
    }
  }

  /** No routine changes the contact's ids: none of them rebuilds the contact-type group. */
  lemma UpdateKeepsIds(p: Property, c: Contact, individual: Individual)
    ensures Update(p, c, individual).id == c.id && Update(p, c, individual).collectionId == c.collectionId
  {
    UpdateFrame(p, c, individual, TypeDetail);
  }

  /** A run of routines keeps the contact's ids. */
  lemma {:induction false} ApplyAllKeepsIds(c: Contact, ps: seq<Property>, individual: Individual)
    ensures ApplyAll(c, ps, individual).id == c.id && ApplyAll(c, ps, individual).collectionId == c.collectionId
    decreases |ps|
  {
    if ps != [] {
      ApplyAllKeepsIds(c, ps[..|ps| - 1], individual);
      UpdateKeepsIds(ps[|ps| - 1], ApplyAll(c, ps[..|ps| - 1], individual), individual);
    }
  }

  /** A new contact is filed under `sql-` and the hash, in collection `col-1`. */
  lemma MaterializedId(managerUri: string, hash: uint32, individual: Individual)
    ensures Materialized(managerUri, hash, individual).id == ContactId(managerUri, DbIdToByteArray(hash, false))
    ensures Materialized(managerUri, hash, individual).collectionId == ContactId(managerUri, DbIdToByteArray(1, true))
  {
    ApplyAllKeepsIds(NewContact(managerUri, hash), AddOrder, individual);
  }

  /** Running several routines in a row is running the first ones, then the rest. */
  lemma {:induction false} ApplyAllSplit(c: Contact, ps: seq<Property>, qs: seq<Property>, individual: Individual)
    ensures ApplyAll(c, ps + qs, individual) == ApplyAll(ApplyAll(c, ps, individual), qs, individual)
    decreases |qs|
  {
    if qs == [] {
      assert ps + qs == ps;
    } else {
      var init := qs[..|qs| - 1];
      assert (ps + qs)[..|ps + qs| - 1] == ps + init;
      ApplyAllSplit(c, ps, init, individual);
    }
  }

  /** Right after a routine other than the name and label ones, its group holds what it derived. */
  lemma GroupAfterStep(c: Contact, ps: seq<Property>, individual: Individual, i: nat)
    requires i < |ps| && !SetsLabel(ps[i])
    ensures DetailsOf(ApplyAll(c, ps[..i + 1], individual), GroupKind(ps[i])) == Group(ps[i], individual)
  {
    ApplyAllStep(c, ps, i, individual);
    UpdateReplacesGroup(ps[i], ApplyAll(c, ps[..i], individual), individual);
  }

  /** A routine's group after it and routines for other groups ran holds what that routine derived. */
  lemma ApplyAllGroup(c: Contact, ps: seq<Property>, individual: Individual, i: nat)
    requires i < |ps| && !SetsLabel(ps[i])
    requires forall j :: i < j < |ps| ==> GroupKind(ps[j]) != GroupKind(ps[i])
    ensures DetailsOf(ApplyAll(c, ps, individual), GroupKind(ps[i])) == Group(ps[i], individual)
  {
    var k := GroupKind(ps[i]);
    var head := ps[..i + 1];
    var rest := ps[i + 1..];
    assert head + rest == ps;
    ApplyAllSplit(c, head, rest, individual);
    GroupAfterStep(c, ps, individual, i);
    OnlyAliasGroupIsLabel(ps[i]);
    forall j | 0 <= j < |rest|
      ensures k != GroupKind(rest[j]) && !(SetsLabel(rest[j]) && k == DisplayLabel)
    {
      assert rest[j] == ps[i + 1 + j];
    }
    ApplyAllFrame(ApplyAll(c, head, individual), rest, individual, k);
  }

  /** In a new contact each group holds exactly what its routine derives from the individual. */
  lemma MaterializedGroup(managerUri: string, hash: uint32, individual: Individual, i: nat)
    requires i < |AddOrder| && !SetsLabel(AddOrder[i])
    ensures DetailsOf(Materialized(managerUri, hash, individual), GroupKind(AddOrder[i])) == Group(AddOrder[i], individual)
  {
    AddOrderGroupsLast(i);
    ApplyAllGroup(NewContact(managerUri, hash), AddOrder, individual, i);
  }

  /** The alias routine, then both name routines: what they leave in the name group and the label. */
  lemma NamingSteps(c: Contact, individual: Individual)
    ensures var r := Update(FullNameChanged, Update(StructuredNameChanged, Update(AliasChanged, c, individual), individual), individual);
      && DetailsOf(r, Name) == (if individual.fullName.Some? then [NameDetail(individual.fullName.value)] else [])
      && (individual.fullName.Some? ==> LabelOf(r) == individual.fullName.value)
      && (individual.fullName.None? && AliasLabel(individual).Some? ==> LabelOf(r) == AliasLabel(individual).value)
      && (individual.fullName.None? && AliasLabel(individual).None? ==> DetailsOf(r, DisplayLabel) == DetailsOf(c, DisplayLabel))
      && r.id == c.id
  {
    var afterAlias := Update(AliasChanged, c, individual);
    var afterStructured := Update(StructuredNameChanged, afterAlias, individual);
    AliasUpdateEffect(c, individual);
    NameUpdateEffect(afterAlias, individual);
    assert afterStructured == Update(FullNameChanged, afterAlias, individual);
    NameUpdateEffect(afterStructured, individual);
  }

  /**
   * After the alias and the two name routines, routines for other groups:
   * the name group comes from the full name, and the label is the full name,
   * else the alias routine's choice, else what it was before.
   */
  lemma ApplyAllNaming(c: Contact, ps: seq<Property>, individual: Individual)
    requires |ps| >= 3 && ps[0] == AliasChanged && ps[1] == StructuredNameChanged && ps[2] == FullNameChanged
    requires forall j :: 3 <= j < |ps| ==> GroupKind(ps[j]) != Name && !SetsLabel(ps[j])
    ensures DetailsOf(ApplyAll(c, ps, individual), Name) ==
      if individual.fullName.Some? then [NameDetail(individual.fullName.value)] else []
    ensures individual.fullName.Some? ==> LabelOf(ApplyAll(c, ps, individual)) == individual.fullName.value
    ensures individual.fullName.None? && AliasLabel(individual).Some? ==>
      LabelOf(ApplyAll(c, ps, individual)) == AliasLabel(individual).value
    ensures individual.fullName.None? && AliasLabel(individual).None? ==>
      DetailsOf(ApplyAll(c, ps, individual), DisplayLabel) == DetailsOf(c, DisplayLabel)
    ensures ApplyAll(c, ps, individual).id == c.id
  {
    var head := ps[..3];
    var tail := ps[3..];
    assert ps == head + tail;
    ApplyAllSplit(c, head, tail, individual);
    var mid := ApplyAll(c, head, individual);
    NamingHead(c, ps, individual);
    forall j | 0 <= j < |tail|
      ensures GroupKind(tail[j]) != Name && !SetsLabel(tail[j])
    {
      assert tail[j] == ps[j + 3];
    }
    NamesLeftAlone(mid, tail, individual);
    NamingCarried(c, mid, ApplyAll(mid, tail, individual), individual);
  }

  /** What the naming routines left in `mid` holds in any `r` with the same name group, label and id. */
  lemma NamingCarried(c: Contact, mid: Contact, r: Contact, individual: Individual)
    requires DetailsOf(mid, Name) == (if individual.fullName.Some? then [NameDetail(individual.fullName.value)] else [])
    requires individual.fullName.Some? ==> LabelOf(mid) == individual.fullName.value
    requires individual.fullName.None? && AliasLabel(individual).Some? ==> LabelOf(mid) == AliasLabel(individual).value
    requires individual.fullName.None? && AliasLabel(individual).None? ==> DetailsOf(mid, DisplayLabel) == DetailsOf(c, DisplayLabel)
    requires mid.id == c.id
    requires DetailsOf(r, Name) == DetailsOf(mid, Name) && DetailsOf(r, DisplayLabel) == DetailsOf(mid, DisplayLabel) && r.id == mid.id
    ensures DetailsOf(r, Name) == if individual.fullName.Some? then [NameDetail(individual.fullName.value)] else []
    ensures individual.fullName.Some? ==> LabelOf(r) == individual.fullName.value
    ensures individual.fullName.None? && AliasLabel(individual).Some? ==> LabelOf(r) == AliasLabel(individual).value
    ensures individual.fullName.None? && AliasLabel(individual).None? ==> DetailsOf(r, DisplayLabel) == DetailsOf(c, DisplayLabel)
    ensures r.id == c.id
  {
    assert FirstOf(r, DisplayLabel) == FirstOf(mid, DisplayLabel);
  }

  /** What the first three routines of such a run leave in the name group and the label. */
  lemma NamingHead(c: Contact, ps: seq<Property>, individual: Individual)
    requires |ps| >= 3 && ps[0] == AliasChanged && ps[1] == StructuredNameChanged && ps[2] == FullNameChanged
    ensures var r := ApplyAll(c, ps[..3], individual);
      && DetailsOf(r, Name) == (if individual.fullName.Some? then [NameDetail(individual.fullName.value)] else [])
      && (individual.fullName.Some? ==> LabelOf(r) == individual.fullName.value)
      && (individual.fullName.None? && AliasLabel(individual).Some? ==> LabelOf(r) == AliasLabel(individual).value)
      && (individual.fullName.None? && AliasLabel(individual).None? ==> DetailsOf(r, DisplayLabel) == DetailsOf(c, DisplayLabel))
      && r.id == c.id
  {
    NamingFirst(c, ps, individual);
    NamingSteps(c, individual);
  }

  /** The first three routines of such a run are the alias and the two name routines, in that order. */
  lemma NamingFirst(c: Contact, ps: seq<Property>, individual: Individual)
    requires |ps| >= 3 && ps[0] == AliasChanged && ps[1] == StructuredNameChanged && ps[2] == FullNameChanged
    ensures ApplyAll(c, ps[..3], individual) ==
      Update(FullNameChanged, Update(StructuredNameChanged, Update(AliasChanged, c, individual), individual), individual)
  {
    assert ps[..0] == [];
    ApplyAllStep(c, ps, 0, individual);
    ApplyAllStep(c, ps, 1, individual);
    ApplyAllStep(c, ps, 2, individual);
  }

  /** Routines that neither name nor label leave the name group and the label as they are. */
  lemma NamesLeftAlone(c: Contact, ps: seq<Property>, individual: Individual)
    requires forall j :: 0 <= j < |ps| ==> GroupKind(ps[j]) != Name && !SetsLabel(ps[j])
    ensures DetailsOf(ApplyAll(c, ps, individual), Name) == DetailsOf(c, Name)
    ensures DetailsOf(ApplyAll(c, ps, individual), DisplayLabel) == DetailsOf(c, DisplayLabel)
    ensures ApplyAll(c, ps, individual).id == c.id
  {
    forall j | 0 <= j < |ps|
      ensures GroupKind(ps[j]) != DisplayLabel
    {
      OnlyAliasGroupIsLabel(ps[j]);
    }
    ApplyAllFrame(c, ps, individual, DisplayLabel);
    ApplyAllFrame(c, ps, individual, Name);
  }

  /** The name group of a new contact: one name detail from the full name, or none. */
  lemma MaterializedName(managerUri: string, hash: uint32, individual: Individual)
    ensures DetailsOf(Materialized(managerUri, hash, individual), Name) ==
      if individual.fullName.Some? then [NameDetail(individual.fullName.value)] else []
  {
    AddOrderNaming();
    ApplyAllNaming(NewContact(managerUri, hash), AddOrder, individual);
  }

  /** The label of a new contact: the full name, else a usable nickname, else a usable alias; otherwise it has none. */
  lemma MaterializedLabel(managerUri: string, hash: uint32, individual: Individual)
    ensures individual.fullName.Some? ==> LabelOf(Materialized(managerUri, hash, individual)) == individual.fullName.value
    ensures individual.fullName.None? && AliasLabel(individual).Some? ==>
      LabelOf(Materialized(managerUri, hash, individual)) == AliasLabel(individual).value
    ensures individual.fullName.None? && AliasLabel(individual).None? ==>
      DetailsOf(Materialized(managerUri, hash, individual), DisplayLabel) == []
    ensures Materialized(managerUri, hash, individual).id == ContactId(managerUri, DbIdToByteArray(hash, false))
  {
    var start := NewContact(managerUri, hash);
    assert OfKind(start.details, DisplayLabel) == [];
    AddOrderNaming();
    ApplyAllNaming(start, AddOrder, individual);
  }

  /** addIndividual runs the alias and the two name routines first, and no later routine names or labels. */
  lemma AddOrderNaming()
    ensures |AddOrder| >= 3 && AddOrder[0] == AliasChanged && AddOrder[1] == StructuredNameChanged && AddOrder[2] == FullNameChanged
    ensures forall j :: 3 <= j < |AddOrder| ==> GroupKind(AddOrder[j]) != Name && !SetsLabel(AddOrder[j])
  {
  }

  /** No later routine of addIndividual rebuilds the group of a routine other than the name and label ones. */
  lemma AddOrderGroupsLast(i: nat)
    requires i < |AddOrder| && !SetsLabel(AddOrder[i])
    ensures forall j :: i < j < |AddOrder| ==> GroupKind(AddOrder[j]) != GroupKind(AddOrder[i])
  {
  }
}
