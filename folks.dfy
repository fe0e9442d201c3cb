/**
 * The Folks side of the translation, as the engine sees it: an individual
 * aggregates personas and exposes name, presence and field-detail
 * properties. Gee sets and multimaps are given as sequences in the order
 * their iterators produce them; NULL strings are `None`.
 */
module Folks {
  import opened Common

  /** The parameters of a field detail: each key with its values, in iteration order. */
  type Parameters = seq<(string, seq<string>)>

  /** FolksAbstractFieldDetails holding a string value. */
  datatype FieldDetails = FieldDetails(value: string, parameters: Parameters)

  datatype PostalAddress = PostalAddress(
    poBox: string, extension: string, street: string, locality: string,
    region: string, postalCode: string, country: string, addressFormat: string, uid: string)

  datatype PostalAddressFieldDetails = PostalAddressFieldDetails(address: PostalAddress, parameters: Parameters)

  datatype Role = Role(title: string, organisationName: string, uid: string, role: string)

  datatype RoleFieldDetails = RoleFieldDetails(role: Role, parameters: Parameters)

  datatype StructuredName = StructuredName(
    familyName: string, givenName: string, additionalNames: string, prefixes: string, suffixes: string)

  /** FolksPresenceType */
  datatype PresenceType =
    | FolksUnset | FolksOffline | FolksAvailable | FolksAway | FolksExtendedAway
    | FolksHidden | FolksBusy | FolksUnknown | FolksError

  /** FolksGender */
  datatype FolksGender = FolksUnspecified | FolksMale | FolksFemale

  /**
   * The avatar of an individual: none, an icon backed by a file, or another
   * loadable icon, for which the avatar cache has a URI and may or may not
   * already hold the file.
   */
  datatype AvatarIcon = NoAvatar | FileIcon(fileUri: string) | LoadableIcon(cacheUri: string, cached: bool)

  /** The detail interfaces a persona may implement; the write-back chain only changes a group its persona implements. */
  datatype DetailsInterface =
    | HasPostalAddresses | HasAvatar | HasBirthday | HasFavourite | HasName | HasAlias
    | HasNotes | HasPhoneNumbers | HasImAddresses | HasRoles | HasUrls | HasEmailAddresses | HasGender

  /** A persona: its GObject handle, the handle of its store, and the detail interfaces it implements. */
  datatype Persona = Persona(handle: nat, store: nat, interfaces: set<DetailsInterface>)

  datatype Individual = Individual(
    handle: nat,
    id: string,
    isUser: bool,
    nickname: Option<string>,
    alias: Option<string>,
    fullName: Option<string>,
    structuredName: Option<StructuredName>,
    presenceType: PresenceType,
    presenceMessage: string,
    birthday: Option<int>,
    emailAddresses: seq<FieldDetails>,
    imAddresses: seq<(string, seq<FieldDetails>)>,
    isFavourite: bool,
    gender: FolksGender,
    notes: seq<FieldDetails>,
    roles: seq<RoleFieldDetails>,
    phoneNumbers: seq<FieldDetails>,
    postalAddresses: seq<PostalAddressFieldDetails>,
    urls: seq<FieldDetails>,
    avatar: AvatarIcon,
    personas: seq<Persona>)

  /** A non-NULL, non-empty string, the test the projector applies before using a name. */
  predicate Usable(s: Option<string>)
  {
    s.Some? && s.value != ""
  }
}
