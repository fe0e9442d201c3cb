# qt-folks: the Folks backend for QtContacts, modelled in Dafny

qt-folks is a QtContacts manager engine (`folks`) that serves the
individuals of a GNOME Folks aggregator as `QContact`s and writes edits back
to Folks. This project models its translation core and proves properties of
that model:

- **Field-tag tables** (`Utils`, module `FieldTranslator`). These are the ten
  translators between QtContacts enums and Folks "type" strings: contexts,
  address, online-account and phone sub-types, and IM protocols. Each loop
  is a method proved against a table function. Lemmas prove the tables
  inverse, disjoint from the context tags, and their round trips.
- **Engine ids** (`EngineId`, module `EngineIds`). Equality, ordering, clone,
  `toString` and hash, keyed on the Folks id string.
- **Contacts as values** (module `Contacts`). A `QContact` is an id, a
  collection id and a list of details. Details of one type form a group.
  `removeOldDetails<T>` and the display-label setter are modelled here.
- **The detail diff** (`checkDetailsChanged`, module `DetailDiff`). This is
  the nested erase-while-iterating loop. It is proved equal to a residual
  function. That function reports "unchanged" exactly when the stored and
  edited details of the type are the same multiset.
- **The projector** (`update*FromIndividual`, module `Projector`). Each
  routine replaces one detail group with what it derives from the Folks
  individual. `addIndividual` runs them in a fixed order. The result is
  characterised group by group, including the name and label rules.
- **The write-back chain** (`contactSaveChangesToFolks` and the
  `*DetailChangeCb` callbacks, module `WriteBack`). There are fifteen steps,
  each issuing one Folks change or handing over to the next. The trace of
  the whole chain is defined and characterised: which calls are issued, in
  which order, and a single final flush and deletion of the callback data.
- **The create path** (`personaDetailsHashFromQContact` and the completion
  handlers, module `CreatePath`). This is the hash of persona details built
  from a new contact, and the mapping of aggregator errors.
- **Contact pairs** (`ContactPair`, module `ContactPairs`). The reference
  count the engine holds on each individual.
- **The engine** (`ManagerEngine`, module `Engine`).
  - A class with the two maps `m_allContacts` and `m_individualsToIds`.
  - The add/remove/notify routing into them, with its signals.
  - The `contact`/`contacts`/`contactIds` facade.
  - The `startRequest` dispatcher, which allocates the closures its
    asynchronous calls complete.

Folks is abstract throughout:
- An individual is a record of its property values.
- A persona is a handle, its store and the detail interfaces it implements.
- Asynchronous Folks calls are events appended to a trace. Their
  completions are assumed to arrive.
- `qHash` is a parameter of the engine, an uninterpreted function from
  strings to 32-bit values.

## Model

| member | source | states |
|---|---|---|
| Common.DecimalReadsBack | qt-folks/managerengine.cpp:1606-1610 | The decimal rendering `QByteArray::number` gives is a non-empty digit string that reads back as the number. |
| Common.DecimalInjective | qt-folks/managerengine.cpp:1606-1610 | Different numbers never render alike. |
| FieldTranslator.ContextsFromEnums | qt-folks/utils.cpp:29-47 | One tag per context, in order: home, work, and "other" for any other value. Duplicates are kept and the length is unchanged. |
| FieldTranslator.ContextsFromStrings | qt-folks/utils.cpp:49-64 | The contexts of the tags "home", "work" and "other", in input order. Every other string is dropped. |
| FieldTranslator.LookUpEach | qt-folks/utils.cpp:159-181 | The shared translator loop returns the lookups of the known inputs, in input order. |
| FieldTranslator.AddressSubTypesFromEnums | qt-folks/utils.cpp:66-88 | The tags of the address sub-types the table knows, in order; the rest are dropped. |
| FieldTranslator.AddressSubTypesFromStrings | qt-folks/utils.cpp:90-111 | The address sub-types of the known tags, in order; the rest are dropped. |
| FieldTranslator.OnlineAccountSubTypesFromEnums | qt-folks/utils.cpp:159-181 | The tags of the known online-account sub-types, in order. |
| FieldTranslator.OnlineAccountSubTypesFromStrings | qt-folks/utils.cpp:183-204 | The online-account sub-types of the known tags, in order. |
| FieldTranslator.PhoneSubTypesFromEnums | qt-folks/utils.cpp:207-236 | The tags of the known phone sub-types, in order. |
| FieldTranslator.PhoneSubTypesFromStrings | qt-folks/utils.cpp:239-268 | The phone sub-types of the known tags, in order. |
| FieldTranslator.ProtocolFromEnum | qt-folks/utils.cpp:113-134 | The protocol's tag, or a null string exactly for the unknown protocol. |
| FieldTranslator.ProtocolFromString | qt-folks/utils.cpp:136-157 | Reading a protocol from its tag; `ProtocolRoundTrip` and `ProtocolTagRoundTrip` state that it inverts `ProtocolFromEnum` on the eight named protocols and yields the unknown protocol for every other string. |
| FieldTranslator.ProtocolRoundTrip | qt-folks/utils.cpp:113-157 | Each of the eight named protocols, written as its tag and read back, is itself. |
| FieldTranslator.ProtocolTagRoundTrip | qt-folks/utils.cpp:113-157 | A string survives the trip to a protocol and back exactly when it names one of the eight protocols. |
| FieldTranslator.FilterMapMembers | qt-folks/utils.cpp:49-64 | A translator's output holds exactly the lookups of its known inputs. |
| FieldTranslator.FilterMapNoneKnown | qt-folks/utils.cpp:49-64 | A list with no known entry translates to nothing. |
| FieldTranslator.FilterMapAllKnown | qt-folks/utils.cpp:66-88 | When every entry is known, nothing is dropped and each entry is translated in place. |
| FieldTranslator.FilterMapRoundTrip | qt-folks/utils.cpp:66-111 | Through a table and its inverse, the known inputs come back in order and the unknown ones are gone. |
| FieldTranslator.ForeignTagsIgnored | qt-folks/managerengine.cpp:1293-1295 | A decoder that knows none of another table's tags reads nothing from that table's output. |
| FieldTranslator.AddressTablesInverse | qt-folks/utils.cpp:66-111 | The two address tables undo each other in both directions. |
| FieldTranslator.AccountTablesInverse | qt-folks/utils.cpp:159-204 | The two online-account tables undo each other in both directions. |
| FieldTranslator.PhoneTablesInverse | qt-folks/utils.cpp:207-268 | The two phone tables undo each other in both directions. |
| FieldTranslator.PhoneTagsRead | qt-folks/utils.cpp:207-236 | Every phone sub-type the engine writes reads back as itself. |
| FieldTranslator.PhoneStringsWritten | qt-folks/utils.cpp:239-268 | Every phone sub-type string the engine reads writes back as itself. |
| FieldTranslator.AddressTagsDisjointFromContexts | qt-folks/utils.cpp:66-111 | No address sub-type tag is a context tag, and no context tag is an address sub-type tag. |
| FieldTranslator.AccountTagsDisjointFromContexts | qt-folks/utils.cpp:159-204 | The same for the online-account sub-type tags. |
| FieldTranslator.PhoneTagsDisjointFromContexts | qt-folks/utils.cpp:207-268 | The same for the phone sub-type tags. |
| FieldTranslator.ContextsRoundTrip | qt-folks/utils.cpp:29-64 | Contexts written as tags and read back keep their length. Home and work survive; every other context comes back as other. |
| FieldTranslator.ContextTagsRoundTrip | qt-folks/utils.cpp:29-64 | A list of context tags read as contexts and written again is unchanged. |
| FieldTranslator.AddressSubTypesRoundTrip | qt-folks/utils.cpp:66-111 | Address sub-types written and read back are the known ones, in order. |
| FieldTranslator.AccountSubTypesRoundTrip | qt-folks/utils.cpp:159-204 | Online-account sub-types written and read back are the known ones, in order. |
| FieldTranslator.PhoneSubTypesRoundTrip | qt-folks/utils.cpp:207-268 | Phone sub-types written and read back are the known ones, in order. |
| FieldTranslator.PhoneTypeParameterSeparates | qt-folks/managerengine.cpp:532-534 | One "type" list holding context tags, then phone sub-type tags, decodes back into the contexts and the known sub-types independently. |
| FieldTranslator.AddressTypeParameterSeparates | qt-folks/managerengine.cpp:1333-1336 | The same for addresses. |
| FieldTranslator.AccountTypeParameterSeparates | qt-folks/managerengine.cpp:1173-1174 | The same for online accounts. |
| EngineIds.BuildUri | qt-folks/engineid.cpp:31-35 | A URI built from parameters starts with `qtcontacts:folks:`. |
| EngineIds.FromParameters | qt-folks/engineid.cpp:31-35 | The id keeps the Folks id it is given and the URI built for this backend. |
| EngineIds.IsEqualTo | qt-folks/engineid.cpp:37-46 | The definition: a foreign id is never equal, and our ids are equal when their Folks ids are. Its meaning is stated by `EqualityIsEquivalence` and `ManagerUriIgnored`. |
| EngineIds.IsLessThan | qt-folks/engineid.cpp:48-57 | The definition: a foreign id is never ordered, and our ids are ordered by their Folks ids. Its meaning is stated by `LessThanIsStrictOrder` and `ForeignIdsUnordered`. |
| EngineIds.Clone | qt-folks/engineid.cpp:64-67 | The copy equals the original both ways and keeps the manager URI. |
| EngineIds.ToString | qt-folks/engineid.cpp:69-72 | The definition: the Folks id. `ToStringIdentifies` states that it identifies the id. |
| EngineIds.Hash | qt-folks/engineid.cpp:82-85 | The definition: the string hash of the Folks id. `EqualIdsHashAlike` states that it agrees with equality. |
| EngineIds.EqualityIsEquivalence | qt-folks/engineid.cpp:37-46 | `isEqualTo` is reflexive, symmetric and transitive on this backend's ids. It is false for an id of another backend. |
| EngineIds.ManagerUriIgnored | qt-folks/engineid.cpp:37-57 | Two ids with the same Folks id are equal and unordered, whatever their manager URIs. |
| EngineIds.ToStringIdentifies | qt-folks/engineid.cpp:69-72 | Two ids print alike exactly when they are equal. |
| EngineIds.EqualIdsHashAlike | qt-folks/engineid.cpp:82-85 | Equal ids have equal hashes, whatever the string hash. |
| EngineIds.StringLessIrreflexive | qt-folks/engineid.cpp:48-57 | No string is before itself. |
| EngineIds.StringLessTransitive | qt-folks/engineid.cpp:48-57 | The string order is transitive. |
| EngineIds.StringLessTrichotomy | qt-folks/engineid.cpp:48-57 | Two strings are equal or ordered one way, and never both ways. |
| EngineIds.StringLess | qt-folks/engineid.cpp:48-57 | The string order of isLessThan. `StringLessIrreflexive`, `StringLessTransitive` and `StringLessTrichotomy` state that it is a strict total order; the Left out line says where it differs from QString's. |
| EngineIds.LessThanIsStrictOrder | qt-folks/engineid.cpp:48-57 | `isLessThan` is a strict total order that never holds together with `isEqualTo`. |
| EngineIds.ForeignIdsUnordered | qt-folks/engineid.cpp:48-57 | An id of another backend is never ordered against ours. |
| Contacts.RemoveOldDetails | qt-folks/managerengine.h:241-246 | The contact afterwards holds its other details in order and none of the removed type. |
| Contacts.OfKindWithout | qt-folks/managerengine.h:241-246 | Removing one type leaves every other type's details exactly as they were. |
| Contacts.WithoutKindTwice | qt-folks/managerengine.h:241-246 | Removing the details of a type twice is removing them once. |
| Contacts.ReplaceGroupContents | qt-folks/managerengine.cpp:1118-1143 | After remove-then-save, the group holds exactly the saved details. Other groups and the ids are unchanged. |
| Contacts.ReplaceGroup | qt-folks/managerengine.cpp:1118-1143 | Remove-then-save of one group. `ReplaceGroupContents`, `ReplaceGroupIdempotent` and `ReplaceGroupsCommute` state its effect. |
| Contacts.ReplaceGroupIdempotent | qt-folks/managerengine.cpp:1118-1143 | Replacing a group twice with the same details is replacing it once. |
| Contacts.ReplaceGroupsCommute | qt-folks/managerengine.cpp:1648-1695 | Replacing two different groups in either order gives the same groups. |
| Contacts.SetLabelEffect | qt-folks/managerengine.cpp:896-918 | Setting the label makes it the contact's label. It adds a label detail only when there was none, and leaves other groups and the id alone. |
| Contacts.SetLabel | qt-folks/managerengine.cpp:896-918 | The definition: set the label field of the first label detail, or append one. Its meaning is stated by `SetLabelEffect`, `SetLabelIdempotent` and `SetLabelKinds`. |
| Contacts.SetLabelIdempotent | qt-folks/managerengine.cpp:896-918 | Setting the same label twice is setting it once. |
| Contacts.SetLabelKinds | qt-folks/managerengine.cpp:896-918 | Setting the label brings in no detail of another type. |
| DetailDiff.FieldsMatchIsMapEquality | qt-folks/managerengine.cpp:151-181 | Two details match exactly when their field maps are equal, i.e. every key of either is in both with equal values. |
| DetailDiff.FieldsMatch | qt-folks/managerengine.cpp:151-181 | The definition of the field comparison in the inner loop. `FieldsMatchIsMapEquality`, `FieldsMatchSymmetric` and `MatchIsEquality` state its meaning. |
| DetailDiff.FieldsMatchSymmetric | qt-folks/managerengine.cpp:151-181 | Matching is symmetric. |
| DetailDiff.MatchIsEquality | qt-folks/managerengine.cpp:151-181 | Within one detail type, matching is equality. |
| DetailDiff.FirstMatch | qt-folks/managerengine.cpp:151-186 | The position found is the first stored detail matching, or the end when none does. |
| DetailDiff.FindMatch | qt-folks/managerengine.cpp:151-186 | The inner loop stops at the first match. |
| DetailDiff.CheckDetailsChanged | qt-folks/managerengine.cpp:139-197 | The verdict is "changed" exactly when an edited or a stored detail of the type is left unpaired. |
| DetailDiff.ResidualDrawsFromOriginal | qt-folks/managerengine.cpp:139-197 | The unpaired stored details are a sub-multiset of the stored ones. |
| DetailDiff.ResidualBalances | qt-folks/managerengine.cpp:139-197 | Each pairing erases one detail from each side: stored plus unpaired edited equals edited plus unpaired stored. |
| DetailDiff.ResidualsDisjoint | qt-folks/managerengine.cpp:139-197 | No unpaired edited detail matches an unpaired stored one. |
| DetailDiff.Residual | qt-folks/managerengine.cpp:139-197 | The details the erase-on-match loop leaves unpaired on each side. `ResidualDrawsFromOriginal`, `ResidualBalances` and `ResidualsDisjoint` state what they are. |
| DetailDiff.UnchangedIffSameDetails | qt-folks/managerengine.cpp:139-197 | "Unchanged" exactly when stored and edited details are equal up to reordering. |
| DetailDiff.Changed | qt-folks/managerengine.cpp:139-197 | The verdict: some detail is left unpaired. `UnchangedIffSameDetails` states that it is false exactly when the details are equal up to reordering. |
| DetailDiff.NothingChangedAgainstItself | qt-folks/managerengine.cpp:139-197 | A contact compared with itself is unchanged in every type. |
| DetailDiff.DifferentCountsChanged | qt-folks/managerengine.cpp:139-197 | Different detail counts always mean "changed". |
| Projector.ContextsFromFieldDetails | qt-folks/managerengine.cpp:67-99 | The loop collects the values of the "type" parameter, each once, in first-seen order. |
| Projector.ContextsOf | qt-folks/managerengine.cpp:101-105 | The contexts the "type" tags name. `WriteBack.ContextsSurvive` and `WriteBack.ContextParametersSurvive` state that it undoes the write-back of contexts. |
| Projector.AddNewMeaning | qt-folks/managerengine.cpp:91-93 | Adding only values not yet present keeps the list free of repeats and holds exactly old and new values. |
| Projector.AddNew | qt-folks/managerengine.cpp:91-93 | Adding values to a list without repeats; `AddNewMeaning` states that the result has no repeats and holds exactly the old and the new values. |
| Projector.AddNewDistinct | qt-folks/managerengine.cpp:91-93 | Values that are already distinct are all appended. |
| Projector.TypeTagsMeaning | qt-folks/managerengine.cpp:67-99 | The context tags have no repeats and are exactly the values of the "type" key; other keys are ignored. |
| Projector.TypeTags | qt-folks/managerengine.cpp:67-99 | The context tags read from field-detail parameters; `TypeTagsMeaning` states that they have no repeats and are exactly the values of the "type" key. |
| Projector.TypeTagsOfDistinct | qt-folks/managerengine.cpp:67-99 | A single "type" key with distinct values yields those values in order. |
| Projector.AccountsFor | qt-folks/managerengine.cpp:1160-1180 | The accounts made for one protocol are all online-account details. |
| Projector.ImDetails | qt-folks/managerengine.cpp:1145-1184 | Every detail made from the IM addresses is an online-account detail. |
| Projector.SaveEach | qt-folks/managerengine.cpp:1118-1143 | The save loop appends one derived detail per Folks value, in order. |
| Projector.UpdateEmailAddresses | qt-folks/managerengine.cpp:1118-1143 | The e-mail routine yields the contact the e-mail update describes. |
| Projector.EmailDetail | qt-folks/managerengine.cpp:1118-1143 | One e-mail detail per Folks address. `WriteBack.EmailSurvivesFromFolks` states that the write-back restores the Folks value. |
| Projector.UpdateNotes | qt-folks/managerengine.cpp:1224-1246 | The notes routine yields its update. |
| Projector.NoteDetail | qt-folks/managerengine.cpp:1224-1246 | One note detail per Folks note. `WriteBack.NoteSurvivesFromFolks` and `WriteBack.NoteSurvivesFromQt` state the round trip in both directions. |
| Projector.UpdateUrls | qt-folks/managerengine.cpp:1345-1367 | The URL routine yields its update. |
| Projector.UrlDetail | qt-folks/managerengine.cpp:1345-1367 | One URL detail per Folks URL. `WriteBack.UrlSurvivesFromFolks` states that the corrected write-back restores the Folks value. |
| Projector.UpdatePhoneNumbers | qt-folks/managerengine.cpp:1274-1301 | The phone routine yields its update, with contexts and sub-types from the "type" tags. |
| Projector.PhoneDetail | qt-folks/managerengine.cpp:1274-1301 | One phone detail per Folks number, with contexts and sub-types from the same tags. `WriteBack.PhoneSurvivesFromQt` states that a number written to Folks reads back unchanged. |
| Projector.UpdateOrganization | qt-folks/managerengine.cpp:1248-1272 | The role routine yields its update. |
| Projector.OrganizationDetail | qt-folks/managerengine.cpp:1248-1272 | One organisation detail per Folks role, with title, name and contexts. `WriteBack.RoleSurvivesFromFolks` states what the write-back then restores. |
| Projector.UpdateAddresses | qt-folks/managerengine.cpp:1303-1343 | The address routine yields its update. |
| Projector.AddressDetail | qt-folks/managerengine.cpp:1303-1343 | One address detail per Folks postal address. `WriteBack.AddressSurvivesFromQt` states that an address written to Folks reads back unchanged. |
| Projector.UpdateImAddresses | qt-folks/managerengine.cpp:1145-1184 | The IM routine yields its update: one account per value of each protocol key. |
| Projector.ImDetail | qt-folks/managerengine.cpp:1145-1184 | One online account per IM address, its protocol named by the multimap key. `WriteBack.AccountSurvivesFromQt` states that an account written to Folks reads back unchanged. |
| Projector.SaveAccounts | qt-folks/managerengine.cpp:1145-1184 | The key loop appends the accounts of every protocol key in turn. |
| Projector.SaveAccountsFor | qt-folks/managerengine.cpp:1160-1180 | The value loop appends one account per value of a key. |
| Projector.UpdateFavorite | qt-folks/managerengine.cpp:1186-1197 | The favourite routine yields its update. |
| Projector.UpdateGender | qt-folks/managerengine.cpp:1199-1222 | The gender routine yields its update: one detail for male or female, none otherwise. Its contexts are taken as none (see "Left out"). |
| Projector.UpdateBirthday | qt-folks/managerengine.cpp:1100-1116 | The birthday routine yields its update, with the seconds cut to setTime_t's uint. |
| Projector.AsTimeT | qt-folks/managerengine.cpp:1112 | The gint64 seconds passed to setTime_t(uint) become a value in [0, 2^32) that differs by a multiple of 2^32. Values in that range are kept. |
| Projector.BirthdayGroupMeaning | qt-folks/managerengine.cpp:1100-1116 | One birthday detail exactly when there is a birthday. It shows the same seconds exactly when they lie in [0, 2^32); otherwise the shown seconds differ by a multiple of 2^32. |
| Projector.PreEpochBirthdayWraps | qt-folks/managerengine.cpp:1112 | A birthday on the last day of 1969 (-86400 seconds) is shown as 4294880896 seconds, in February 2106. |
| Projector.UpdateNickname | qt-folks/managerengine.cpp:990-1003 | The nickname routine yields its update. |
| Projector.UpdatePresence | qt-folks/managerengine.cpp:1005-1014 | The presence routine yields its update. |
| Projector.UpdateAvatar | qt-folks/managerengine.cpp:1062-1098 | The avatar routine yields its update. It names the avatar it asks the cache to store exactly when a loadable icon is not cached yet. |
| Projector.AvatarPending | qt-folks/managerengine.cpp:1062-1098 | The avatar file the cache is asked to store, when it is not cached yet; `UpdateAvatar` states that the routine requests exactly this one. |
| Projector.UpdateName | qt-folks/managerengine.cpp:927-988 | The structured-name and full-name routines both yield this one update. |
| Projector.UpdateDisplayLabel | qt-folks/managerengine.cpp:896-925 | The alias routine yields its update. |
| Projector.ApplyUpdate | qt-folks/managerengine.cpp:1996-2041 | The routine a property's notify signal runs yields that property's update. It requests avatar caching only for the avatar property. |
| Projector.GroupKinds | qt-folks/managerengine.cpp:1118-1367 | Each routine saves only details of its own type. |
| Projector.Group | qt-folks/managerengine.cpp:990-1367 | The definition of the details each routine derives from the individual. `GroupRules`, `GroupKinds`, `BirthdayGroupMeaning` and `UpdateReplacesGroup` state its meaning. |
| Projector.Update | qt-folks/managerengine.cpp:896-1367 | The definition of the contact after a routine. `UpdateReplacesGroup`, `NameUpdateEffect`, `AliasUpdateEffect`, `UpdateFrame` and `UpdateIdempotent` state its meaning. |
| Projector.OnlyAliasGroupIsLabel | qt-folks/managerengine.cpp:896-925 | The alias routine is the only one whose group is the display label. |
| Projector.UpdateReplacesGroup | qt-folks/managerengine.cpp:990-1367 | Each routine other than the name and label ones leaves exactly its derived details in its group. Every other group and the ids are unchanged. |
| Projector.NameUpdateEffect | qt-folks/managerengine.cpp:927-974 | With a full name, the name group is its one split name detail and the label becomes the full name. Without one, no name detail remains and the label is untouched. |
| Projector.AliasUpdateEffect | qt-folks/managerengine.cpp:896-925 | The label becomes a usable nickname, else a usable alias. With neither, the contact is unchanged. Nothing else changes. |
| Projector.AliasLabel | qt-folks/managerengine.cpp:896-925 | The label the alias routine chooses; `AliasUpdateEffect` states that it is a usable nickname, else a usable alias, else nothing changes. |
| Projector.UpdateFrame | qt-folks/managerengine.cpp:896-1367 | A routine touches only its own group, plus the label for the name and alias routines, and never the ids. |
| Projector.UpdateIdempotent | qt-folks/managerengine.cpp:896-1367 | Re-running a routine on an unchanged individual changes nothing more. |
| Projector.PresenceMapping | qt-folks/managerengine.cpp:1581-1605 | Unset, unknown and error read as PresenceUnknown. The six other presence types map to six distinct states. |
| Projector.FolksToQtPresence | qt-folks/managerengine.cpp:1581-1605 | The definition of the presence mapping. `PresenceMapping` states its meaning. |
| Projector.PresenceDetailMeaning | qt-folks/managerengine.cpp:1732-1752 | A presence detail exists exactly when the type is not unset. It carries the presence message and the alias. |
| Projector.PresenceDetail | qt-folks/managerengine.cpp:1732-1752 | The definition of setPresenceDetail for an individual. `PresenceDetailMeaning` states its meaning. |
| Projector.GroupRules | qt-folks/managerengine.cpp:990-1222 | Favourite always saves one detail with the flag. Gender saves one detail only for male or female. Presence saves one only when set, and nickname one only when usable. |
| Projector.SplitJoinsBack | qt-folks/managerengine.cpp:927-974 | Splitting on ' ' keeps empty parts. The parts hold no space and join back to the string. |
| Projector.SplitOnSpace | qt-folks/managerengine.cpp:954 | QString::split(' ') keeping empty parts gives at least one part. `SplitJoinsBack` states the rest of its meaning. |
| Projector.NameDetailMeaning | qt-folks/managerengine.cpp:927-974 | A full name splitting into two parts gives first and last name, joining back to it. Anything else is all first name. |
| Projector.TwoWordName | qt-folks/managerengine.cpp:927-974 | A full name with one space between two space-free words splits into exactly those first and last names. |
| Projector.NameDetail | qt-folks/managerengine.cpp:953-962 | The definition of the name detail built from a full name. `NameDetailMeaning` and `TwoWordName` state its meaning. |
| Projector.DbIdsDistinct | qt-folks/managerengine.cpp:1606-1610 | Two local ids are equal exactly when the numbers and the contact/collection flags are. |
| Projector.DbIdToByteArray | qt-folks/managerengine.cpp:1606-1610 | The definition: `col-` or `sql-`, then the number in decimal. `DbIdsDistinct` states that it is injective. |
| Projector.RunRoutines | qt-folks/managerengine.cpp:1648-1695 | The routines run in turn give the composed update, and the avatar request when the avatar routine is among them. |
| Projector.Materialize | qt-folks/managerengine.cpp:1612-1710 | addIndividual's construction of the contact, and the avatar whose caching it starts. |
| Projector.Materialized | qt-folks/managerengine.cpp:1612-1710 | The contact addIndividual builds; `Materialize` is proved against it, and `MaterializedId`, `MaterializedGroup`, `MaterializedName` and `MaterializedLabel` state its content. |
| Projector.ApplyAllFrame | qt-folks/managerengine.cpp:1648-1695 | Routines that do not touch a group leave it, and the ids, alone. |
| Projector.ApplyAll | qt-folks/managerengine.cpp:1648-1695 | The routines of a list run in turn; `ApplyAllFrame` states that routines leave the groups they do not touch alone, and `MaterializedGroup` what each group then holds. |
| Projector.UpdateKeepsIds | qt-folks/managerengine.cpp:896-1367 | No routine changes the contact's id or collection id. |
| Projector.ApplyAllKeepsIds | qt-folks/managerengine.cpp:1648-1695 | A run of routines keeps the ids. |
| Projector.MaterializedId | qt-folks/managerengine.cpp:1624-1633 | A new contact is filed under `sql-` and the hash of the Folks id, in collection `col-1`. |
| Projector.NewContact | qt-folks/managerengine.cpp:1624-1633 | The contact addIndividual starts from. `MaterializedId` states the id and collection it gives, and `CreatePath.NothingToCreate` that its one type detail gives the create path nothing. |
| Projector.MaterializedGroup | qt-folks/managerengine.cpp:1648-1695 | In a new contact, each group other than name and label holds exactly what its routine derives. |
| Projector.NamingSteps | qt-folks/managerengine.cpp:1648-1655 | The alias routine, then both name routines, leave the full-name split in the name group. The label is the full name, else the alias choice. |
| Projector.ApplyAllNaming | qt-folks/managerengine.cpp:1648-1695 | Later routines that do not name or label leave those results intact. |
| Projector.MaterializedName | qt-folks/managerengine.cpp:1648-1655 | A new contact's name group is the split full name, or empty. The structured name is not used. |
| Projector.MaterializedLabel | qt-folks/managerengine.cpp:1648-1658 | A new contact's label is the full name, else a usable nickname, else a usable alias. Otherwise it has none. |
| Projector.AddOrderNaming | qt-folks/managerengine.cpp:1648-1695 | addIndividual runs the alias and the two name routines first. No later routine names or labels. |
| Projector.AddOrderGroupsLast | qt-folks/managerengine.cpp:1648-1695 | No later routine of addIndividual rebuilds an earlier routine's group. |
| WriteBack.CollectEach | qt-folks/managerengine.cpp:474-497 | The loop filling a Gee set collects one value per non-empty detail. |
| WriteBack.CollectedMeaning | qt-folks/managerengine.cpp:474-497 | The set holds exactly the values made from the non-empty details. |
| WriteBack.BuildCall | qt-folks/managerengine.cpp:199-846 | Each step builds the call and value specified for it from the edited contact. IM accounts with an unknown protocol or empty URI are skipped. Gender is male, female or unspecified. The URL step is the corrected one (see "Findings"). |
| WriteBack.CallOf | qt-folks/managerengine.cpp:199-846 | The call each step issues; `BuildCall` is proved against it, and `CallsMeaning` and `IssuedIffIssues` state which calls the chain issues. |
| WriteBack.RunSteps | qt-folks/managerengine.cpp:199-846 | Running a list of steps in turn issues exactly the calls of the steps whose conditions hold. |
| WriteBack.StepsTrace | qt-folks/managerengine.cpp:199-846 | The events of a list of steps run in turn; `RunSteps` is proved against it, and `CallsMeaning` and `StepsTraceAppend` state how it composes. |
| WriteBack.RunChain | qt-folks/managerengine.cpp:2600-2647 | The save chain yields the chain trace. |
| WriteBack.ChainTrace | qt-folks/managerengine.cpp:199-846 | The definition of the corrected chain's events. `IssuedIffIssues`, `CallsInChainOrder` and `DeletedOnceAtEnd` state its meaning. |
| WriteBack.IssuingMeaning | qt-folks/managerengine.cpp:199-846 | A step is kept exactly when it is in the run and its conditions hold. |
| WriteBack.CallsMeaning | qt-folks/managerengine.cpp:199-846 | The trace holds each issuing step's call built from the edited contact, and nothing else. |
| WriteBack.IssuedIffIssues | qt-folks/managerengine.cpp:199-846 | The chain issues a step's call exactly when the persona has the interface, the group changed and the value test passes. The value test applies to four steps: birthday, calendar id, full name and alias. |
| WriteBack.Issues | qt-folks/managerengine.cpp:199-846 | When a step issues its call: the persona has its interface and the step's group changed. `IssuedIffIssues` states that the chain issues exactly those calls. |
| WriteBack.HasValue | qt-folks/managerengine.cpp:199-846 | The further test the birthday, calendar-event, full-name and alias steps make: a non-empty birthday or a non-empty label. `IssuedIffIssues` states that these steps issue their calls only when it holds. |
| WriteBack.DeletedOnceAtEnd | qt-folks/managerengine.cpp:818-846 | The callback data is deleted exactly once, by the last event. |
| WriteBack.Terminal | qt-folks/managerengine.cpp:818-846 | The last callback: flush the store or warn, release the persona, free the data. `DeletedOnceAtEnd` states that its delete is the only one and the last event, and `UnchangedContactWritesNothing` that it is all a save of an unchanged contact does. |
| WriteBack.ChainOrderAscending | qt-folks/managerengine.cpp:199-846 | The chain goes: addresses, avatar, birthday, calendar id, favourite, full name, alias, structured name, notes, phones, IM, roles, URLs, e-mail, gender. |
| WriteBack.CallsInChainOrder | qt-folks/managerengine.cpp:199-846 | Issued calls appear in chain order, so each step issues at most once. |
| WriteBack.UnchangedContactWritesNothing | qt-folks/managerengine.cpp:199-846 | Saving a contact exactly as stored issues no call; only the terminal events happen. |
| WriteBack.NoPersonaWritesNothing | qt-folks/managerengine.cpp:818-846 | Without a primary persona no call is issued. The chain still flushes the store, or warns there is none, then deletes the data. |
| WriteBack.NameAndAliasStepsAgree | qt-folks/managerengine.cpp:364-416 | For a persona with name and alias interfaces, the full-name and alias steps issue together. Both do so exactly when the label changed and is non-empty. |
| WriteBack.TypeParametersReadBack | qt-folks/managerengine.cpp:50-65 | Distinct tags are written as one "type" key in order, or none, and read back unchanged. |
| WriteBack.TypeParameters | qt-folks/managerengine.cpp:50-65 | The "type" key setFieldDetailsFromContexts writes; `TypeParametersReadBack` states that distinct tags come back from it in order, and that no tags give no key. |
| WriteBack.NotePayload | qt-folks/managerengine.cpp:482-488 | The field details the notes step hands Folks for a note; `NoteSurvivesFromFolks` and `NoteSurvivesFromQt` state that a note survives the trip in both directions. |
| WriteBack.UrlPayload | qt-folks/managerengine.cpp:722-728 | The field details a URL ends up as in the set; `UrlSurvivesFromFolks` states that a URL read from Folks is written back as the same field details. |
| WriteBack.EmailPayload | qt-folks/managerengine.cpp:765-771 | The field details the email step hands Folks for an address; `EmailSurvivesFromFolks` states that an address read from Folks is written back unchanged. |
| WriteBack.PhonePayload | qt-folks/managerengine.cpp:526-536 | The field details for a phone number, with contexts and sub-types sharing the "type" key; `PhoneSurvivesFromQt` states that such a number is read back unchanged. |
| WriteBack.AddressPayload | qt-folks/managerengine.cpp:2608-2628 | The postal-address field details the address step hands Folks. The fields the source passes as NULL are empty. The address call holds exactly these for the non-empty addresses, by `BuildCall` and `CollectedMeaning`. |
| WriteBack.RolePayload | qt-folks/managerengine.cpp:666-685 | The role field details the roles step hands Folks: title, organisation and role name, with an empty uid. The roles call holds exactly these for the non-empty organisations, by `BuildCall` and `CollectedMeaning`. |
| WriteBack.AccountPayload | qt-folks/managerengine.cpp:611-630 | One IM multimap entry: the protocol tag as key, the URI with context and sub-type tags as value. The IM call holds exactly these for the writable accounts, by `BuildCall` and `CollectedMeaning`. |
| WriteBack.WritableAccount | qt-folks/managerengine.cpp:611-615 | An account the IM step writes: not empty, with a known protocol and a non-empty URI. The IM call holds exactly the payloads of these, by `BuildCall` and `CollectedMeaning`. |
| WriteBack.AvatarIconOf | qt-folks/managerengine.cpp:216-235 | The icon the avatar step sends: the image URL, or NULL for an empty one. `AvatarSurvivesFromFolks` states that an avatar the projector shows is sent back as the same URI. |
| WriteBack.ContextsSurvive | qt-folks/managerengine.cpp:50-106 | Distinct home/work/other contexts survive being written as tags and read back. |
| WriteBack.ContextParametersSurvive | qt-folks/managerengine.cpp:50-106 | Folks parameters made only of distinct context tags survive being read as contexts and written again. |
| WriteBack.NoteSurvivesFromFolks | qt-folks/managerengine.cpp:474-497 | A note read from Folks is written back as the same field details. |
| WriteBack.EmailSurvivesFromFolks | qt-folks/managerengine.cpp:757-779 | An e-mail address read from Folks is written back unchanged. |
| WriteBack.UrlSurvivesFromFolks | qt-folks/managerengine.cpp:715-737 | A URL read from Folks is written back unchanged. |
| WriteBack.BirthdaySurvivesFromFolks | qt-folks/managerengine.cpp:1112 | A birthday shown and written back keeps its seconds exactly when they lie in [0, 2^32). One within 2^32 seconds before 1970 comes back 2^32 seconds later. |
| WriteBack.NoteSurvivesFromQt | qt-folks/managerengine.cpp:474-497 | A QtContacts note with distinct normal contexts reads back unchanged after being written. |
| WriteBack.PhoneSurvivesFromQt | qt-folks/managerengine.cpp:517-545 | A phone number carrying distinct normal contexts and known sub-types reads back unchanged after being written. |
| WriteBack.SubTypeTagsDistinct | qt-folks/managerengine.cpp:50-65 | Context tags followed by the tags of a sub-type table that never names a context form one "type" list without repeats. |
| WriteBack.AddressTagsReadBack | qt-folks/managerengine.cpp:1303-1343 | The "type" tags written for an address read back as exactly its contexts and its sub-types. |
| WriteBack.AddressSurvivesFromQt | qt-folks/managerengine.cpp:2608-2628 | A postal address with distinct normal contexts and distinct known sub-types is read back unchanged after being written to Folks. |
| WriteBack.AccountTagsReadBack | qt-folks/managerengine.cpp:1145-1184 | The "type" tags written for an online account read back as exactly its contexts and its sub-types. |
| WriteBack.AccountSurvivesFromQt | qt-folks/managerengine.cpp:611-630 | An online account of a named protocol, with distinct normal contexts and distinct known sub-types, is read back unchanged from the IM entry written for it. |
| WriteBack.RoleSurvivesFromFolks | qt-folks/managerengine.cpp:666-685 | A role read from Folks is written back with its title, organisation name and parameters; its uid and role name come back empty. |
| WriteBack.AvatarSurvivesFromFolks | qt-folks/managerengine.cpp:216-235 | A file icon, or a cached icon, with a non-empty URI is shown and sent back as that URI; no avatar and an uncached icon give no detail. |
| WriteBack.NotesGroupWrittenBack | qt-folks/managerengine.cpp:474-497 | The notes projected from Folks values are written back as the set of those values. |
| WriteBack.NotesWrittenBack | qt-folks/managerengine.cpp:474-497 | An individual's notes, projected and then saved, make the notes call with the same set. |
| WriteBack.ChainAroundAlias | qt-folks/managerengine.cpp:397-416 | The chain trace is the steps before the alias step, its call if any, the steps after it, and the terminal events. |
| WriteBack.AsWrittenChainTrace | qt-folks/managerengine.cpp:397-416 | The definition of the chain as written, where the rest of the chain runs twice after an alias call. `AsWrittenAliasDeletesTwice` states its effect. |
| WriteBack.AsWrittenAgreesWithoutAlias | qt-folks/managerengine.cpp:400-416 | When the alias step issues nothing, the chain as written is the corrected chain. |
| WriteBack.AsWrittenAliasDeletesTwice | qt-folks/managerengine.cpp:400-416 | When the alias step issues, the chain as written deletes the callback data twice; the corrected one once. |
| WriteBack.AliasIssues | qt-folks/managerengine.cpp:400-412 | The alias step issues for a persona with the alias interface whose label changed to a non-empty one. |
| WriteBack.AliasEditShowsDoubleDelete | qt-folks/managerengine.cpp:400-416 | Adding a non-empty label to a contact without one, for an alias-capable persona, makes the written chain delete its data twice. |
| WriteBack.AsWrittenUrlsAgreeWhenDistinct | qt-folks/managerengine.cpp:721-729 | When no two non-empty URLs share an address, the set as written holds each corrected element exactly once, and nothing else. |
| WriteBack.BareUrl | qt-folks/managerengine.cpp:724-727 | A URL as the source adds it, before its parameters are set: its address alone. It is the comparison key of the as-written URL step. |
| WriteBack.AsWrittenUrls | qt-folks/managerengine.cpp:721-729 | The URL set as written, where each URL is compared while still bare. `AsWrittenUrlsAgreeWhenDistinct`, `AsWrittenUrlsDropRepeat` and `AsWrittenUrlsKeepRepeat` state when it matches the corrected set and when it does not. |
| WriteBack.DistinctUrls | qt-folks/managerengine.cpp:721-729 | No two non-empty URLs share an address: the condition under which `AsWrittenUrlsAgreeWhenDistinct` shows the as-written set to be the corrected one. |
| WriteBack.AsWrittenUrlsDropRepeat | qt-folks/managerengine.cpp:721-729 | A plain URL followed by the same address at home: as written, only the plain one is sent; the corrected set sends both. |
| WriteBack.AsWrittenUrlsKeepRepeat | qt-folks/managerengine.cpp:721-729 | The same address twice with the same contexts: as written, the set holds it twice; the corrected set holds it once. |
| WriteBack.UrlCallHoldsEveryUrl | qt-folks/managerengine.cpp:715-737 | The corrected URL call holds exactly the non-empty URLs of the edited contact, each with its own "type" parameters. |
| CreatePath.PutMeaning | qt-folks/managerengine.cpp:2246-2248 | A guarded insertion adds the key exactly when there is a value, and keeps every other key. |
| CreatePath.EarlyInsertionsMeaning | qt-folks/managerengine.cpp:2293-2429 | The insertions up to the structured name hold exactly the early keys with a value. |
| CreatePath.LateInsertionsMeaning | qt-folks/managerengine.cpp:2431-2526 | The later insertions add exactly the later keys with a value and keep the early ones. |
| CreatePath.InsertionsMakeHash | qt-folks/managerengine.cpp:2283-2527 | The sequence of insertions holds every key that has a value, with that value. |
| CreatePath.PersonaDetailsHashFromContact | qt-folks/managerengine.cpp:2283-2527 | The builder gives the persona-details hash of the contact. |
| CreatePath.InsertEarly | qt-folks/managerengine.cpp:2293-2429 | The blocks for addresses through structured name make the early insertions. |
| CreatePath.InsertLate | qt-folks/managerengine.cpp:2431-2526 | The blocks for the display label through URLs make the late insertions. |
| CreatePath.InsertAddresses | qt-folks/managerengine.cpp:2293-2337 | Insert the postal addresses when the contact has an address detail. |
| CreatePath.InsertAvatar | qt-folks/managerengine.cpp:2339-2361 | Insert the avatar when the first avatar has a non-empty image URL. |
| CreatePath.InsertBirthday | qt-folks/managerengine.cpp:2363-2375 | Insert the birthday when the first birthday detail is not empty. |
| CreatePath.InsertStringFieldDetails | qt-folks/managerengine.cpp:2250-2265 | Insert the set of non-empty e-mail, note or URL values when the contact has a detail of that type. |
| CreatePath.InsertFavourite | qt-folks/managerengine.cpp:2386-2396 | Insert the favourite flag when the first favourite detail is not empty. |
| CreatePath.InsertGender | qt-folks/managerengine.cpp:2398-2413 | Insert the gender when the first gender detail is not empty. |
| CreatePath.InsertStructuredName | qt-folks/managerengine.cpp:2415-2429 | Insert the structured name when the first name detail is not empty. |
| CreatePath.InsertNames | qt-folks/managerengine.cpp:2431-2442 | Insert the full name and the alias for a non-empty label. |
| CreatePath.InsertImAddresses | qt-folks/managerengine.cpp:2452-2472 | Insert the IM multimap only when some account went into it. |
| CreatePath.InsertRoles | qt-folks/managerengine.cpp:2474-2495 | Insert the roles when the contact has an organization detail. |
| CreatePath.InsertPhoneNumbers | qt-folks/managerengine.cpp:2497-2519 | Insert the phone numbers when the contact has a phone detail. |
| CreatePath.HashMeaning | qt-folks/managerengine.cpp:2283-2527 | The hash holds exactly the keys the contact gives an entry, each with that entry. |
| CreatePath.PersonaDetailsHash | qt-folks/managerengine.cpp:2283-2527 | The definition of the hash: each key with the entry the contact gives it. `HashMeaning`, `KeysComeFromDetails` and `PersonaDetailsHashFromContact` state its meaning. |
| CreatePath.ImPayload | qt-folks/managerengine.cpp:2110-2122 | One IM multimap entry of the create path: protocol tag and URI, without parameters. `ImAddressesMeaning` states that the entry holds exactly these for the non-empty accounts. |
| CreatePath.HashRole | qt-folks/managerengine.cpp:2484-2487 | A role of the create path: title and organisation only. The roles entry holds exactly these for the non-empty organisations, by `HashMeaning` and `CollectedMeaning`. |
| CreatePath.ListEntry | qt-folks/managerengine.cpp:2250-2265 | A list-valued key: present exactly when the contact has a detail of its type. `HashMeaning` and `NotesEntry` state what it then holds. |
| CreatePath.Entry | qt-folks/managerengine.cpp:2283-2527 | What the create path puts under each key; `HashMeaning` states that the hash holds exactly the keys with an entry, and `KeysComeFromDetails` that each comes from a detail of its type. |
| CreatePath.LabelGivesBothNames | qt-folks/managerengine.cpp:2431-2442 | The full name and the alias are present exactly for a non-empty label, and both hold it. |
| CreatePath.KeysComeFromDetails | qt-folks/managerengine.cpp:2283-2527 | Every key comes from some detail of its type. |
| CreatePath.NothingToCreate | qt-folks/managerengine.cpp:2283-2527 | A contact with only its type detail gives an empty hash. |
| CreatePath.ImAddressesMeaning | qt-folks/managerengine.cpp:2452-2472 | The IM entries are exactly the payloads of the non-empty accounts. |
| CreatePath.NotesEntry | qt-folks/managerengine.cpp:2444-2450 | The notes entry of a contact with projected notes: none when there are none, else the collected set. |
| CreatePath.NotesRecreated | qt-folks/managerengine.cpp:2444-2450 | Projected Folks notes recreate the notes key exactly when there are notes, as the set of those notes. |
| CreatePath.MaterializedNotes | qt-folks/managerengine.cpp:1679-1680 | A projected contact's notes are the individual's notes, one detail each. |
| CreatePath.MaterializedNotesRecreated | qt-folks/managerengine.cpp:2444-2450 | An individual projected by addIndividual and saved as new makes a persona with the same notes. |
| CreatePath.MaterializedNamesRecreated | qt-folks/managerengine.cpp:2431-2442 | A projected individual with a non-empty full name, saved as new, gives that name as both full name and alias. |
| CreatePath.ManagerErrorFromAggregatorError | qt-folks/managerengine.cpp:2173-2200 | A failure is never NoError, and reads as unspecified exactly for the codes not named. The three named codes are ADD_FAILED, STORE_OFFLINE and NO_WRITEABLE_STORE. |
| CreatePath.ErrorsKeptApart | qt-folks/managerengine.cpp:2173-2200 | The named codes map to distinct errors. |
| CreatePath.AddPersonaFinished | qt-folks/managerengine.cpp:2203-2245 | Finishes with one contact and its error at index 0. NoError exactly on success; AlreadyExists for no persona; the mapped error otherwise. On success with an individual, the id is `sql-` and the individual id's hash. |
| CreatePath.CreatedIdMatchesStoredId | qt-folks/managerengine.cpp:2203-2245 | A created contact gets the id under which addIndividual files its individual. |
| CreatePath.RemoveIndividualFinished | qt-folks/managerengine.cpp:2529-2554 | The remove request finishes. Success records no error; a failure records a non-success error at index 0. |
| ContactPairs.Reffed | qt-folks/managerengine.h:135-140 | One more reference on a non-NULL individual; none otherwise. |
| ContactPairs.Unreffed | qt-folks/managerengine.h:141-148 | One reference fewer on a non-NULL individual; none otherwise. |
| ContactPairs.References.constructor | qt-folks/managerengine.h:156 | No reference and no warning yet. |
| ContactPairs.References.Ref | qt-folks/managerengine.h:135-140 | `g_object_ref` updates the counts, with one critical warning for NULL. |
| ContactPairs.References.Unref | qt-folks/managerengine.h:141-148 | `g_object_unref` updates the counts, with one critical warning for NULL. |
| ContactPairs.References.NewPair | qt-folks/managerengine.h:135-137 | Constructing from an individual takes one reference. |
| ContactPairs.References.CopyPair | qt-folks/managerengine.h:138-140 | Copying takes one reference, even on NULL, which warns. |
| ContactPairs.References.AssignPair | qt-folks/managerengine.h:141-147 | Assignment releases the old individual and references the new one; each NULL warns. |
| ContactPairs.Assigned | qt-folks/managerengine.h:141-147 | The counts after assignment. `AssignmentMovesReference` states that one reference moves from the old individual to the new one. |
| ContactPairs.References.DestroyPair | qt-folks/managerengine.h:148 | The destructor releases only a non-NULL individual and never warns. |
| ContactPairs.Destroyed | qt-folks/managerengine.h:148 | The counts after the destructor. `CopyThenDestroy` and `DefaultPairWarnings` state that a copy later destroyed nets to zero and that the default pair destroys silently. |
| ContactPairs.CopyThenDestroy | qt-folks/managerengine.h:138-148 | A copy later destroyed leaves every count as it was. |
| ContactPairs.AssignmentMovesReference | qt-folks/managerengine.h:141-147 | Assignment moves one reference from the old individual to the new one. |
| ContactPairs.DefaultPairWarnings | qt-folks/managerengine.h:133-148 | The default pair destroys silently, but copying or assigning it warns for NULL. |
| ContactPairs.HoldersAfterStore | qt-folks/managerengine.cpp:1704-1705 | Storing a pair under an id: the replaced pair stops holding and the new one starts. |
| ContactPairs.HoldersAfterRemove | qt-folks/managerengine.cpp:1723 | Removing an id: its pair stops holding. |
| Engine.ManagerInfo | qt-folks/managerengine.h:101-109 | The manager is "folks", version 1, with one contact type (contact) and one data type (string). |
| Engine.AddedLinked | qt-folks/managerengine.cpp:1704-1707 | The two inserts keep the link between the maps exactly when neither the individual nor the id was filed elsewhere. |
| Engine.Added | qt-folks/managerengine.cpp:1704-1707 | The two inserts of addIndividual. `AddedLinked` states when they keep the link between the maps, and `RemoveUndoesAdd` that a removal undoes them. |
| Engine.AddedKeepsLink | qt-folks/managerengine.cpp:1704-1707 | The "if" half of that. |
| Engine.AddedBreaksLink | qt-folks/managerengine.cpp:1704-1707 | The "only if" half of that. |
| Engine.RemovedLinked | qt-folks/managerengine.cpp:1712-1727 | removeIndividual keeps the link and leaves no trace of the individual or its id. |
| Engine.Removed | qt-folks/managerengine.cpp:1712-1727 | removeIndividual's effect on the maps. `RemovedLinked` states that it keeps the link and leaves no trace of the individual or its id, and `RemoveUndoesAdd` that it undoes an addition. |
| Engine.RemoveUndoesAdd | qt-folks/managerengine.cpp:1612-1727 | Removing what was just added restores the maps and returns its id. |
| Engine.CollidingIndividualsLoseContact | qt-folks/managerengine.cpp:1626 | Two individuals whose ids hash alike share one entry. The link breaks, and removing the first leaves the second without a contact. |
| Engine.AddedToFilesContact | qt-folks/managerengine.cpp:1612-1710 | A non-self individual gets a non-null id, in both maps, with its projected contact, which carries that id. |
| Engine.AddedTo | qt-folks/managerengine.cpp:1612-1710 | addIndividual's effect on the maps, with the self individual skipped. `AddedToFilesContact` and `AddedToKnown` state what it files and what it keeps. |
| Engine.NotifiedLinked | qt-folks/managerengine.cpp:1980-1994 | A notify callback keeps the link and both maps' keys. |
| Engine.NotifiedRefreshesGroup | qt-folks/managerengine.cpp:1980-1994 | For a known individual, only its contact's group is rebuilt; nothing else changes. |
| Engine.NotifiedIdempotent | qt-folks/managerengine.cpp:1980-1994 | A repeated notification about an unchanged property changes nothing more. |
| Engine.Notified | qt-folks/managerengine.cpp:1980-1994 | A field-notify callback's effect on the maps. `NotifiedLinked`, `NotifiedRefreshesGroup` and `NotifiedIdempotent` state that it keeps the link, rebuilds only the notified group, and changes nothing more when repeated. |
| Engine.RemovedIds | qt-folks/managerengine.cpp:1540-1550 | Only non-null ids are kept from the removals. |
| Engine.AddedIds | qt-folks/managerengine.cpp:1552-1563 | Only non-null ids are kept from the additions. |
| Engine.RemovedAllKnown | qt-folks/managerengine.cpp:1540-1550 | After the removals an individual is known exactly when it was and was not removed. |
| Engine.AddedToKnown | qt-folks/managerengine.cpp:1612-1710 | One addition files the individual unless it is the self one, and keeps every other. |
| Engine.AddedAllKnown | qt-folks/managerengine.cpp:1552-1563 | After the additions an individual is known exactly when it was known or the batch filed it. |
| Engine.BatchKnown | qt-folks/managerengine.cpp:1525-1579 | After a whole batch, an individual is known exactly when it is added and not the self one, or was known and not removed. |
| Engine.AddedIdsCount | qt-folks/managerengine.cpp:1552-1563 | There is exactly one added id per individual other than the self one. |
| Engine.AddSorted | qt-folks/managerengine.cpp:1835 | Adding a contact to the sorted list adds exactly it. |
| Engine.AddSortedAppends | qt-folks/managerengine.cpp:1835 | With nothing to go before, addSorted appends. |
| Engine.PassingMeaning | qt-folks/managerengine.cpp:1830-1837 | A listed contact is a stored contact that passes the filter. |
| Engine.Passing | qt-folks/managerengine.cpp:1830-1837 | The contacts the loop in contacts() keeps. `PassingMeaning` states that they are exactly the stored contacts that pass the filter. |
| Engine.PassingIdsStored | qt-folks/managerengine.cpp:1802-1863 | Under the link, every listed contact is stored under its own id. |
| Engine.FirstInStoreMeaning | qt-folks/managerengine.cpp:2556-2581 | The primary persona is a listed persona of the primary store with none of that store before it. None means no persona is there. |
| Engine.FirstInStore | qt-folks/managerengine.cpp:2556-2581 | The persona getPrimaryPersona finds. `FirstInStoreMeaning` states that it is the first listed persona of the primary store, or none when no persona is there. |
| Engine.GetPrimaryPersona | qt-folks/managerengine.cpp:2556-2581 | NULL for a NULL individual, else the first of its personas in the primary store. |
| Engine.RemoveCallsMeaning | qt-folks/managerengine.cpp:2715-2735 | A remove request issues exactly one call per known id, with that id's closure. |
| Engine.UnknownIdClosureLeaks | qt-folks/managerengine.cpp:2717-2724 | The closure allocated for an unknown id is handed to no call, so nothing frees it. |
| Engine.RemoveClosuresMeaning | qt-folks/managerengine.cpp:2715-2719 | A remove allocates fresh closures, one per id, and keeps every other closure. |
| Engine.RemoveCalls | qt-folks/managerengine.cpp:2715-2735 | The calls of a remove request. `RemoveCallsMeaning` states that there is exactly one per known id, with its closure, and `UnknownIdClosureLeaks` that an unknown id gets none. |
| Engine.RemoveClosures | qt-folks/managerengine.cpp:2715-2719 | The closures a remove allocates. `RemoveClosuresMeaning` states that they are fresh, one per id, and that every other closure is kept. |
| Engine.ChainFor | qt-folks/managerengine.cpp:2583-2647 | The save chain for one contact. `ChainForKinds` states that it is a chain trace or nothing, and `ManagerEngine.SaveChangesToFolks` that it runs exactly for a stored contact with an individual. |
| Engine.ChainForKinds | qt-folks/managerengine.cpp:2583-2647 | A contact's save chain issues nothing but a chain trace. |
| Engine.SaveCall | qt-folks/managerengine.cpp:2675-2698 | One contact of a save request. `SaveCallCreates` states that it creates a persona exactly for a null id. |
| Engine.SaveCallCreates | qt-folks/managerengine.cpp:2675-2698 | One contact creates a persona exactly when its id is null, from its details hash and with the closure it is given. |
| Engine.SaveCalls | qt-folks/managerengine.cpp:2672-2699 | A save request's calls. `SaveCallsKinds`, `SaveCallsCreate` and `SaveCallsChain` state which they are. |
| Engine.SaveCallsKinds | qt-folks/managerengine.cpp:2672-2699 | A save request issues only persona creations and save chains. |
| Engine.SaveCallsCreate | qt-folks/managerengine.cpp:2672-2699 | A save request creates a persona for each null-id contact, from its details hash, the k-th of them with closure `next + k`, and for no other contact. |
| Engine.SaveCallsChain | qt-folks/managerengine.cpp:2672-2699 | A save request runs a save chain only for contacts with an id, and each such chain is the one that contact gives. |
| Engine.AddClosures | qt-folks/managerengine.cpp:2678-2682 | The closures a save request allocates. `AddClosuresMeaning` states what they are. |
| Engine.AddClosuresMeaning | qt-folks/managerengine.cpp:2672-2699 | A save request allocates fresh closures, one per null-id contact and holding it, the k-th at `next + k`, and keeps every other closure. |
| Engine.UnknownSaveLeavesPhantom | qt-folks/managerengine.cpp:2585 | As written, saving an unknown id inserts a default pair under it, which breaks the link. |
| Engine.Lookup | qt-folks/managerengine.cpp:2585 | The definition of the value QMap's non-const operator[] returns: the stored pair, or a default one. |
| Engine.SaveLookupAsWritten | qt-folks/managerengine.cpp:2585 | The definition of the map after that operator[]. `UnknownSaveLeavesPhantom` states its effect. |
| Engine.ManagerEngine.constructor | qt-folks/managerengine.cpp:848-881 | An engine starts with empty maps, no signals or calls, no closures, and no initial population. |
| Engine.ManagerEngine.InsertPair | qt-folks/managerengine.cpp:1704-1705 | Storing a new pair under an id keeps the reference counts balanced. |
| Engine.ManagerEngine.Project | qt-folks/managerengine.cpp:1612-1695 | The new contact is the projection of the individual, filed under the hash-derived id. |
| Engine.ManagerEngine.AddIndividual | qt-folks/managerengine.cpp:1612-1710 | The null id and no change for the self individual. Otherwise the projected contact goes in both maps under its id. It may request avatar caching. |
| Engine.ManagerEngine.RemoveIndividual | qt-folks/managerengine.cpp:1712-1727 | A known individual leaves both maps and its id is returned. An unknown one gives the null id and no change. |
| Engine.ManagerEngine.RemoveEach | qt-folks/managerengine.cpp:1540-1550 | The removal loop removes each individual in turn and keeps the non-null ids. |
| Engine.ManagerEngine.AddEach | qt-folks/managerengine.cpp:1552-1563 | The addition loop adds each individual in turn and keeps the non-null ids. |
| Engine.ManagerEngine.IndividualsChanged | qt-folks/managerengine.cpp:1525-1579 | Every removal before any addition. Then at most one removed batch, then at most one added batch. The initial-population flag is always set. |
| Engine.BatchSignals | qt-folks/managerengine.cpp:1565-1576 | The signals closing a batch: the removed ids before the added ones, each only when there are some. `ManagerEngine.IndividualsChanged` states that a batch emits exactly these. |
| Engine.ManagerEngine.Notify | qt-folks/managerengine.cpp:1980-1994 | An unknown individual is ignored. A known one has its contact updated, and exactly one changed signal is emitted for its id. |
| Engine.AvatarStore | qt-folks/managerengine.cpp:1062-1098 | The avatar-cache request of a notify callback: only for the avatar property, naming the file `Projector.UpdateAvatar` asks to store. `ManagerEngine.Notify` states that the callback issues exactly this. |
| Engine.ManagerEngine.Refresh | qt-folks/managerengine.cpp:1989-1990 | The property's routine on the stored contact keeps its id. |
| Engine.ManagerEngine.StorePair | qt-folks/managerengine.cpp:1989-1990 | Writing the pair back keeps the counts balanced. |
| Engine.ManagerEngine.PersonasChanged | qt-folks/managerengine.cpp:1959-1978 | Nothing without sets or for an unknown individual. Otherwise one changed signal, with the contact left as it is. |
| Engine.ManagerEngine.Contact | qt-folks/managerengine.cpp:1782-1800 | The stored contact and NoError; for an unknown id, a default contact (null ids and the one contact-type detail) with the error left unwritten. |
| Engine.ManagerEngine.Contacts | qt-folks/managerengine.cpp:1802-1863 | Every stored contact passing the filter is listed exactly once, and nothing else. |
| Engine.ManagerEngine.ContactIds | qt-folks/managerengine.cpp:1754-1772 | The ids of what contacts() lists, in its order. |
| Engine.ManagerEngine.NewClosure | qt-folks/managerengine.cpp:2678-2682 | `new` gives a closure at a fresh address. |
| Engine.ManagerEngine.SaveChangesToFolks | qt-folks/managerengine.cpp:2583-2647 | Saves exactly when the id is stored with an individual, running the chain for its primary persona. Corrected: the maps are not changed. |
| Engine.ManagerEngine.SaveOne | qt-folks/managerengine.cpp:2675-2698 | A null-id contact gets a closure and a create call with its details hash; any other goes through the save chain. |
| Engine.ManagerEngine.StartSave | qt-folks/managerengine.cpp:2672-2699 | The save branch handles each contact in turn, one closure per null-id contact. |
| Engine.ManagerEngine.StartRemove | qt-folks/managerengine.cpp:2703-2737 | The remove branch: a closure for every id, a call for every known one. |
| Engine.ManagerEngine.StartFetch | qt-folks/managerengine.cpp:2738-2753 | The fetch always finishes: with the contacts when there are some, else by state. |
| Engine.ManagerEngine.StartRequest | qt-folks/managerengine.cpp:2649-2764 | A null request returns false with no effect; otherwise the request is marked active and routed by type. A save without a primary store does nothing more. Any other type is cancelled and returns false. |
| Engine.ManagerEngine.AddPersonaFromDetailsDone | qt-folks/managerengine.h:194-204 | The completion handler runs once, then the closure is freed. |
| Engine.ManagerEngine.RemoveIndividualDone | qt-folks/managerengine.h:220-229 | The completion handler runs once, then the closure is freed. |

## Left out

- The blocking `g_main_context_iteration` loop of the constructor and the prepare callback are event-loop concurrency. Only the initial-population flag is kept.
- Asynchronous completions are assumed to arrive, and in the order the calls were made. Folks errors reported to the write-back callbacks are only logged, so they are not modelled.
- The avatar cache (`avatarReadyCB`, the file-existence test) is file I/O. Whether an avatar is cached is a field of the individual's icon; the store request is an event.
- GValue, GHashTable, Gee set and QVariant plumbing is left out. Values are Dafny datatypes and compare structurally, so QVariant's cross-type equality is not modelled.
- Birthday conversion between GDateTime and QDateTime is foreign library code. A birthday is whole Unix seconds, and an invalid date is `None`. The cut of the seconds to setTime_t's uint is modelled (`Projector.AsTimeT`). Milliseconds and time zones are not.
- QUrl formatting is omitted; a URL is its string.
- `qHash` is a parameter of the engine. Collisions are not excluded, and `Engine.CollidingIndividualsLoseContact` shows their effect.
- `QContactManagerEngine::testFilter` is an abstract predicate. `addSorted`'s sort orders are an abstract comparison.
- Engine.ManagerEngine.Contacts: the listing is stated as a permutation of the stored contacts that pass the filter. Their sorted order is not stated, since the comparison is abstract, and QMap's key order is a ghost output.
- Engine.ManagerEngine.ContactIds: the same as `Contacts`, through the contacts it lists.
- Engine.ManagerEngine.StartFetch: the same as `Contacts` for the fetched list.
- Code under `#if 0` in `updatePersonas`, `addAccountDetails` and `removeAccountDetails` is dead. `updatePersonas` therefore only releases its iterators, and `m_personasToIndividuals` and `personaPresenceChangedCb` never take part.
- `getPresenceForPersona` and `updatePresenceFromPersona` are also dead: the first always returns an empty presence.
- The collection and self-contact stubs, `compatibleContact` and the unimplemented overloads only return empty values or false.
- The plugin factory only wraps the constructor and the id constructor.
- References Folks holds, and those `getPrimaryPersona` takes on a persona, are not counted. Only the references `ContactPair` holds are.
- Copies of `ContactPair` made in local variables (`ContactPair pair = m_allContacts[id]`) are released when they go out of scope. Their reference counts net to zero and are not recorded; the critical warnings such a copy of a default pair raises are covered by the `Engine.ManagerEngine.Notify` line.
- Engine.ManagerEngine.AddIndividual: the link between the two maps is not an invariant of the engine, because a hash collision or a save of an unknown id breaks it. It is proved preserved or broken operation by operation, in `Engine.AddedLinked`, `Engine.RemovedLinked` and `Engine.NotifiedLinked`.
- A `qobject_cast` of a request to its own type cannot fail here: requests are a datatype by type.
- The static tables of the translators are filled lazily on first use. They are pure functions here, so no result depends on call history.
- Projector.UpdateGender: the source reads the gender's contexts through `FOLKS_ABSTRACT_FIELD_DETAILS(individual)`. An individual is not field details, so that cast warns and reads another type's private data; the result is undefined. The model takes the contexts as none.
- WriteBack.RolePayload: the title, organisation and role strings handed to Folks are `toUtf8().data()` pointers into temporaries already destroyed, so what Folks reads is undefined. The model takes them as the intended strings.
- EngineIds.StringLess: it orders strings by code point. QString's `<` compares UTF-16 units, so the two orders differ for characters outside the Basic Multilingual Plane.
- EngineIds.BuildUri: QContactManager::buildUri escapes ':', '=' and '&' inside parameter keys and values; the model joins the raw strings. The manager URI is only stored and copied into ids, never parsed, so no proof depends on the escaping.
- `contacts()` casts every filter to `QContactIntersectionFilter&` only to log its sub-filters (managerengine.cpp line 1809). For any other filter type that cast is undefined behaviour; the logging is not modelled, and filtering goes through the abstract `testFilter` alone.
- CreatePath.ListEntry: for postal addresses, e-mail addresses, notes, phone numbers and URLs, the source creates the collection only when it adds the first non-empty detail. A contact whose details of one of these types are all empty therefore gets a GValue holding a NULL collection, where the model inserts an empty set. Roles are not affected: their set is created before the loop, so an empty set is what the source inserts too.
- Engine.ManagerEngine.Notify: when the individual's id is missing from the contact map, the non-const `QMap::operator[]` inserts a default `ContactPair` by copy-constructing one, and that copy constructor (managerengine.h:138-140) calls `g_object_ref(NULL)`, which raises a critical warning. These warnings are not counted: `refs.criticals` is left unchanged on that path. The same holds for `Engine.ManagerEngine.PersonasChanged`, and for `Engine.SaveLookupAsWritten`, where the local copy of the inserted default pair at managerengine.cpp line 2585 raises one more. The path is reachable only once the link between the two maps is broken.
- WriteBack.TypeParameters: the lemmas that read parameters back (`WriteBack.TypeParametersReadBack`, `WriteBack.ContextsSurvive`, `WriteBack.ContextParametersSurvive`, and through them `WriteBack.NoteSurvivesFromQt`, `WriteBack.PhoneSurvivesFromQt`, `WriteBack.AddressSurvivesFromQt`, `WriteBack.AccountSurvivesFromQt`, `WriteBack.AddressTagsReadBack`, `WriteBack.AccountTagsReadBack`, `WriteBack.NoteSurvivesFromFolks`, `WriteBack.EmailSurvivesFromFolks`, `WriteBack.UrlSurvivesFromFolks` and `WriteBack.RoleSurvivesFromFolks`) assume Folks lists a key's values in the order they were added. Folks keeps parameters in a Gee multimap, which does not promise that order.
- Gee sets compare field details by value and by parameters, as folks_abstract_field_details_equal does.
- The numeric values of Qt's enums (contexts, sub-types, protocols) come from the QtContacts headers. None of the proofs depends on them.
- The engine's constants `project`, `update` and `chain` are typed to equal `Projector.Materialized`, `Projector.Update` and `WriteBack.ChainTrace`. The class's contracts are stated through them.

## Findings

| source | as written | input that shows it | evidently intended | confidence | as-written member | corrected member |
|---|---|---|---|---|---|---|
| qt-folks/managerengine.cpp:400-416 | The alias step never sets `updated`. After issuing the alias change it also calls `aliasDetailChangeCb` directly, so the rest of the chain runs twice. Each run issues the later calls, flushes the store and deletes the callback data. | A stored contact without a label, edited to carry a non-empty label and saved, where the primary persona implements the alias interface. | Set `updated` when the alias change is issued, so the chain goes on once, from the completion. | not executed | WriteBack.AsWrittenAliasDeletesTwice | WriteBack.DeletedOnceAtEnd |
| qt-folks/managerengine.cpp:721-729 | The URL step adds each URL to the Gee set before setting its "type" parameters. The set therefore compares a bare URL with finished elements: a repeated address after a plain copy is dropped with its contexts, and repeated addresses with the same contexts are both kept. | Two URL details with address "http://x", the first without contexts and the second with Home: only the plain URL is sent. | Set the parameters before adding, as the note, phone and e-mail steps do. | not executed | WriteBack.AsWrittenUrlsDropRepeat | WriteBack.UrlCallHoldsEveryUrl |
| qt-folks/managerengine.cpp:2585 | `m_allContacts[contact.id()]` on the non-const map inserts a default pair for an id the engine does not know. Later lookups then find a default contact (null ids, only the contact-type detail) with no individual, and the maps are no longer linked. | Saving a contact whose non-null id is not in `m_allContacts`. | Look the id up without inserting (`value()`, or `contains()` first). | not executed | Engine.UnknownSaveLeavesPhantom | Engine.ManagerEngine.SaveChangesToFolks |
