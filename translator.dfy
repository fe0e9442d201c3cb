/**
 * The vocabulary translators between QtContacts enumerations and the lower-case
 * tags Folks stores in the "type" parameter of its field details
 * (qt-folks/utils.cpp). Every translator walks its input in order and keeps
 * one output per recognised input; the function-static lookup tables are the
 * constant maps below.
 */
module FieldTranslator {
  import opened Common

  // QContactDetail::DetailContext
  const ContextHome: int := 0
  const ContextWork: int := 1
  const ContextOther: int := 2

  // QContactAddress::SubType
  const AddressParcel: int := 0
  const AddressPostal: int := 1
  const AddressDomestic: int := 2
  const AddressInternational: int := 3

  // QContactOnlineAccount::SubType
  const AccountSip: int := 0
  const AccountSipVoip: int := 1
  const AccountImpp: int := 2
  const AccountVideoShare: int := 3

  // QContactPhoneNumber::SubType
  const PhoneLandline: int := 0
  const PhoneMobile: int := 1
  const PhoneFax: int := 2
  const PhonePager: int := 3
  const PhoneVoice: int := 4
  const PhoneModem: int := 5
  const PhoneVideo: int := 6
  const PhoneCar: int := 7
  const PhoneBulletinBoard: int := 8
  const PhoneMessaging: int := 9
  const PhoneAssistant: int := 10
  const PhoneDtmfMenu: int := 11

  /** QContactOnlineAccount::Protocol */
  datatype Protocol =
    | ProtocolUnknown | ProtocolAim | ProtocolIcq | ProtocolIrc | ProtocolJabber
    | ProtocolMsn | ProtocolQq | ProtocolSkype | ProtocolYahoo

  /** The context a "type" tag names, the lookup table of Utils::contextsFromStrings. */
  function ContextCode(tag: string): Option<int>
  {
    if tag == "home" then Some(ContextHome)
    else if tag == "work" then Some(ContextWork)
    else if tag == "other" then Some(ContextOther)
    else None
  }

  function AddressSubTypeTag(subType: int): Option<string>
  {
    if subType == AddressParcel then Some("parcel")
    else if subType == AddressPostal then Some("postal")
    else if subType == AddressDomestic then Some("domestic")
    else if subType == AddressInternational then Some("international")
    else None
  }

  function AddressSubTypeCode(tag: string): Option<int>
  {
    if tag == "parcel" then Some(AddressParcel)
    else if tag == "postal" then Some(AddressPostal)
    else if tag == "domestic" then Some(AddressDomestic)
    else if tag == "international" then Some(AddressInternational)
    else None
  }

  function AccountSubTypeTag(subType: int): Option<string>
  {
    if subType == AccountSip then Some("sip")
    else if subType == AccountSipVoip then Some("sipvoip")
    else if subType == AccountImpp then Some("impp")
    else if subType == AccountVideoShare then Some("videoshare")
    else None
  }

  function AccountSubTypeCode(tag: string): Option<int>
  {
    if tag == "sip" then Some(AccountSip)
    else if tag == "sipvoip" then Some(AccountSipVoip)
    else if tag == "impp" then Some(AccountImpp)
    else if tag == "videoshare" then Some(AccountVideoShare)
    else None
  }

  function PhoneSubTypeTag(subType: int): Option<string>
  {
    if subType == PhoneLandline then Some("landline")
    else if subType == PhoneMobile then Some("mobile")
    else if subType == PhoneFax then Some("fax")
    else if subType == PhonePager then Some("pager")
    else if subType == PhoneVoice then Some("voice")
    else if subType == PhoneModem then Some("modem")
    else if subType == PhoneVideo then Some("video")
    else if subType == PhoneCar then Some("car")
    else if subType == PhoneBulletinBoard then Some("bulletinboard")
    else if subType == PhoneMessaging then Some("messaging")
    else if subType == PhoneAssistant then Some("assistant")
    else if subType == PhoneDtmfMenu then Some("dtmfmenu")
    else None
  }

  function PhoneSubTypeCode(tag: string): Option<int>
  {
    if tag == "landline" then Some(PhoneLandline)
    else if tag == "mobile" then Some(PhoneMobile)
    else if tag == "fax" then Some(PhoneFax)
    else if tag == "pager" then Some(PhonePager)
    else if tag == "voice" then Some(PhoneVoice)
    else if tag == "modem" then Some(PhoneModem)
    else if tag == "video" then Some(PhoneVideo)
    else if tag == "car" then Some(PhoneCar)
    else if tag == "bulletinboard" then Some(PhoneBulletinBoard)
    else if tag == "messaging" then Some(PhoneMessaging)
    else if tag == "assistant" then Some(PhoneAssistant)
    else if tag == "dtmfmenu" then Some(PhoneDtmfMenu)
    else None
  }

  /** The tag for one context: anything but home and work is written as "other". */
  function ContextTag(context: int): string
  {
    if context == ContextHome then "home" else if context == ContextWork then "work" else "other"
  }

  /** The context a tag stands for after one trip out and back: home and work survive, the rest become other. */
  function NormalContext(context: int): int
  {
    if context == ContextHome || context == ContextWork then context else ContextOther
  }

  function Map<A, B>(f: A -> B, xs: seq<A>): (r: seq<B>)
    ensures |r| == |xs|
    ensures forall i :: 0 <= i < |xs| ==> r[i] == f(xs[i])
  {
    if xs == [] then [] else [f(xs[0])] + Map(f, xs[1..])
  }

  /** The lookups of the elements of `xs` that `table` knows, in the order of `xs`. */
  function FilterMap<K, V>(table: K -> Option<V>, xs: seq<K>): seq<V>
  {
    if xs == [] then [] else (if table(xs[0]).Some? then [table(xs[0]).value] else []) + FilterMap(table, xs[1..])
  }

  /** The elements of `xs` that `table` knows, in the order of `xs`. */
  function KnownTo<K, V>(table: K -> Option<V>, xs: seq<K>): seq<K>
  {
    if xs == [] then [] else (if table(xs[0]).Some? then [xs[0]] else []) + KnownTo(table, xs[1..])
  }

  /** `codes` undoes `tags` on everything `tags` knows. */
  ghost predicate Inverse<K(!new), V>(tags: K -> Option<V>, codes: V -> Option<K>)
  {
    forall k :: tags(k).Some? ==> codes(tags(k).value) == Some(k)
  }

  // ---------------------------------------------------------------- generic facts

  lemma {:induction false} FilterMapAppend<K, V>(table: K -> Option<V>, a: seq<K>, b: seq<K>)
    ensures FilterMap(table, a + b) == FilterMap(table, a) + FilterMap(table, b)
    decreases |a|
  {
    if a == [] {
      assert a + b == b;
    } else {
      var head := if table(a[0]).Some? then [table(a[0]).value] else [];
      assert (a + b)[0] == a[0] && (a + b)[1..] == a[1..] + b;
      assert FilterMap(table, a + b) == head + FilterMap(table, a[1..] + b);
      FilterMapAppend(table, a[1..], b);
      assert FilterMap(table, a) == head + FilterMap(table, a[1..]);
    }
  }

  /** Every output is the lookup of some input, and every known input is looked up. */
  lemma {:induction false} FilterMapMembers<K, V>(table: K -> Option<V>, xs: seq<K>, v: V)
    ensures v in FilterMap(table, xs) <==> exists i :: 0 <= i < |xs| && table(xs[i]) == Some(v)
    decreases |xs|
  {
    if xs != [] {
      FilterMapMembers(table, xs[1..], v);
      if v in FilterMap(table, xs[1..]) {
        var i :| 0 <= i < |xs[1..]| && table(xs[1..][i]) == Some(v);
        assert xs[i + 1] == xs[1..][i];
      }
      if exists i :: 0 <= i < |xs| && table(xs[i]) == Some(v) {
        var i :| 0 <= i < |xs| && table(xs[i]) == Some(v);
        if i > 0 {
          assert xs[1..][i - 1] == xs[i];
        }
      }
    }
  }

  /** Nothing is looked up if no input is known. */
  lemma {:induction false} FilterMapNoneKnown<K, V>(table: K -> Option<V>, xs: seq<K>)
    requires forall i :: 0 <= i < |xs| ==> table(xs[i]).None?
    ensures FilterMap(table, xs) == []
    decreases |xs|
  {
    if xs != [] {
      FilterMapNoneKnown(table, xs[1..]);
    }
  }

  /** When every input is known, each is looked up in place and none is dropped. */
  lemma {:induction false} FilterMapAllKnown<K, V>(table: K -> Option<V>, xs: seq<K>)
    requires forall i :: 0 <= i < |xs| ==> table(xs[i]).Some?
    ensures |FilterMap(table, xs)| == |xs|
    ensures forall i :: 0 <= i < |xs| ==> FilterMap(table, xs)[i] == table(xs[i]).value
    ensures KnownTo(table, xs) == xs
    decreases |xs|
  {
    if xs != [] {
      FilterMapAllKnown(table, xs[1..]);
      var r := FilterMap(table, xs[1..]);
      assert FilterMap(table, xs) == [table(xs[0]).value] + r;
      forall i | 1 <= i < |xs|
        ensures FilterMap(table, xs)[i] == table(xs[i]).value
      {
        assert xs[1..][i - 1] == xs[i];
      }
    }
  }

  /** Through a table and back through its inverse, the known inputs survive in order and the rest are dropped. */
  lemma {:induction false} FilterMapRoundTrip<K(!new), V>(tags: K -> Option<V>, codes: V -> Option<K>, xs: seq<K>)
    requires Inverse(tags, codes)
    ensures FilterMap(codes, FilterMap(tags, xs)) == KnownTo(tags, xs)
    decreases |xs|
  {
    if xs != [] {
      var head := if tags(xs[0]).Some? then [tags(xs[0]).value] else [];
      assert FilterMap(tags, xs) == head + FilterMap(tags, xs[1..]);
      FilterMapAppend(codes, head, FilterMap(tags, xs[1..]));
      FilterMapRoundTrip(tags, codes, xs[1..]);
      if tags(xs[0]).Some? {
        assert FilterMap(codes, head) == [codes(tags(xs[0]).value).value] + FilterMap(codes, []);
      }
    }
  }

  /** Decoding what another table wrote yields nothing when none of its tags is known here. */
  lemma ForeignTagsIgnored<K, V, W(!new)>(codes: V -> Option<K>, other: W -> Option<V>, xs: seq<W>)
    requires forall w :: other(w).Some? ==> codes(other(w).value).None?
    ensures FilterMap(codes, FilterMap(other, xs)) == []
  {
    var ys := FilterMap(other, xs);
    forall i | 0 <= i < |ys|
      ensures codes(ys[i]).None?
    {
      FilterMapMembers(other, xs, ys[i]);
    }
    FilterMapNoneKnown(codes, ys);
  }

  // ---------------------------------------------------------------- the translators

  /** Utils::contextsFromEnums: one tag per context, in order. */
  method ContextsFromEnums(contexts: seq<int>) returns (strings: seq<string>)
    ensures strings == Map(ContextTag, contexts)
  {
    strings := [];
    var i := 0;
    while i < |contexts|
      invariant 0 <= i <= |contexts|
      invariant |strings| == i
      invariant forall j :: 0 <= j < i ==> strings[j] == ContextTag(contexts[j])
    {
      strings := strings + [ContextTag(contexts[i])];
      i := i + 1;
    }
  }

  /** The loop every table-driven translator runs: look each input up, keep the known ones. */
  method LookUpEach<K, V>(table: K -> Option<V>, xs: seq<K>) returns (r: seq<V>)
    ensures r == FilterMap(table, xs)
  {
    r := [];
    var i := 0;
    while i < |xs|
      invariant 0 <= i <= |xs|
      invariant r == FilterMap(table, xs[..i])
    {
      assert xs[..i + 1] == xs[..i] + [xs[i]];
      FilterMapAppend(table, xs[..i], [xs[i]]);
      var entry := table(xs[i]);
      if entry.Some? {
        r := r + [entry.value];
      }
      i := i + 1;
    }
    assert xs[..i] == xs;
  }

  /** Utils::contextsFromStrings: unknown tags are dropped. */
  method ContextsFromStrings(contexts: seq<string>) returns (values: seq<int>)
    ensures values == FilterMap(ContextCode, contexts)
  {
    values := LookUpEach(ContextCode, contexts);
  }

  method AddressSubTypesFromEnums(subTypes: seq<int>) returns (strings: seq<string>)
    ensures strings == FilterMap(AddressSubTypeTag, subTypes)
  {
    strings := LookUpEach(AddressSubTypeTag, subTypes);
  }

  method AddressSubTypesFromStrings(subTypes: seq<string>) returns (values: seq<int>)
    ensures values == FilterMap(AddressSubTypeCode, subTypes)
  {
    values := LookUpEach(AddressSubTypeCode, subTypes);
  }

  method OnlineAccountSubTypesFromEnums(subTypes: seq<int>) returns (strings: seq<string>)
    ensures strings == FilterMap(AccountSubTypeTag, subTypes)
  {
    strings := LookUpEach(AccountSubTypeTag, subTypes);
  }

  method OnlineAccountSubTypesFromStrings(subTypes: seq<string>) returns (values: seq<int>)
    ensures values == FilterMap(AccountSubTypeCode, subTypes)
  {
    values := LookUpEach(AccountSubTypeCode, subTypes);
  }

  method PhoneSubTypesFromEnums(subTypes: seq<int>) returns (strings: seq<string>)
    ensures strings == FilterMap(PhoneSubTypeTag, subTypes)
  {
    strings := LookUpEach(PhoneSubTypeTag, subTypes);
  }

  method PhoneSubTypesFromStrings(subTypes: seq<string>) returns (values: seq<int>)
    ensures values == FilterMap(PhoneSubTypeCode, subTypes)
  {
    values := LookUpEach(PhoneSubTypeCode, subTypes);
  }

  /** Utils::onlineAccountProtocolFromEnum: the tag of a named protocol, a null string for the unknown one. */
  function ProtocolFromEnum(protocol: Protocol): (tag: Option<string>)
    ensures tag.None? <==> protocol == ProtocolUnknown
  {
    match protocol
    case ProtocolAim => Some("aim")
    case ProtocolIcq => Some("icq")
    case ProtocolIrc => Some("irc")
    case ProtocolJabber => Some("jabber")
    case ProtocolMsn => Some("msn")
    case ProtocolQq => Some("qq")
    case ProtocolSkype => Some("skype")
    case ProtocolYahoo => Some("yahoo")
    case ProtocolUnknown => None
  }

  /** Utils::onlineAccountProtocolFromString: the protocol a tag names, the unknown protocol otherwise. */
  function ProtocolFromString(tag: string): Protocol
  {
    if tag == "aim" then ProtocolAim
    else if tag == "icq" then ProtocolIcq
    else if tag == "irc" then ProtocolIrc
    else if tag == "jabber" then ProtocolJabber
    else if tag == "msn" then ProtocolMsn
    else if tag == "qq" then ProtocolQq
    else if tag == "skype" then ProtocolSkype
    else if tag == "yahoo" then ProtocolYahoo
    else ProtocolUnknown
  }

  // ---------------------------------------------------------------- properties of the tables

  lemma AddressTablesInverse()
    ensures Inverse(AddressSubTypeTag, AddressSubTypeCode) && Inverse(AddressSubTypeCode, AddressSubTypeTag)
  {
  }

  lemma AccountTablesInverse()
    ensures Inverse(AccountSubTypeTag, AccountSubTypeCode) && Inverse(AccountSubTypeCode, AccountSubTypeTag)
  {
  }

  lemma PhoneTablesInverse()
    ensures Inverse(PhoneSubTypeTag, PhoneSubTypeCode) && Inverse(PhoneSubTypeCode, PhoneSubTypeTag)
  {
    PhoneTagsRead();
    PhoneStringsWritten();
  }

  /** Every phone sub-type the engine writes reads back as itself. */
  lemma PhoneTagsRead()
    ensures Inverse(PhoneSubTypeTag, PhoneSubTypeCode)
  {
    forall k | PhoneSubTypeTag(k).Some?
      ensures PhoneSubTypeCode(PhoneSubTypeTag(k).value) == Some(k)
    {
      if k == PhoneLandline {} else if k == PhoneMobile {} else if k == PhoneFax {} else if k == PhonePager {}
      else if k == PhoneVoice {} else if k == PhoneModem {} else if k == PhoneVideo {} else if k == PhoneCar {}
      else if k == PhoneBulletinBoard {} else if k == PhoneMessaging {} else if k == PhoneAssistant {} else {}
    }
  }

  /** Every phone sub-type string the engine reads writes back as itself. */
  lemma PhoneStringsWritten()
    ensures Inverse(PhoneSubTypeCode, PhoneSubTypeTag)
  {
    forall t | PhoneSubTypeCode(t).Some?
      ensures PhoneSubTypeTag(PhoneSubTypeCode(t).value) == Some(t)
    {
      if t == "landline" {} else if t == "mobile" {} else if t == "fax" {} else if t == "pager" {}
      else if t == "voice" {} else if t == "modem" {} else if t == "video" {} else if t == "car" {}
      else if t == "bulletinboard" {} else if t == "messaging" {} else if t == "assistant" {} else {}
    }
  }

  /** No sub-type tag is a context tag, and no context tag is a sub-type tag. */
  lemma AddressTagsDisjointFromContexts()
    ensures forall k :: AddressSubTypeTag(k).Some? ==> ContextCode(AddressSubTypeTag(k).value).None?
    ensures forall c :: AddressSubTypeCode(ContextTag(c)).None?
  {
    forall k | AddressSubTypeTag(k).Some?
      ensures ContextCode(AddressSubTypeTag(k).value).None?
    {
      if k == AddressParcel {} else if k == AddressPostal {} else if k == AddressDomestic {} else {}
    }
  }

  lemma AccountTagsDisjointFromContexts()
    ensures forall k :: AccountSubTypeTag(k).Some? ==> ContextCode(AccountSubTypeTag(k).value).None?
    ensures forall c :: AccountSubTypeCode(ContextTag(c)).None?
  {
    forall k | AccountSubTypeTag(k).Some?
      ensures ContextCode(AccountSubTypeTag(k).value).None?
    {
      if k == AccountSip {} else if k == AccountSipVoip {} else if k == AccountImpp {} else {}
    }
  }

  lemma PhoneTagsDisjointFromContexts()
    ensures forall k :: PhoneSubTypeTag(k).Some? ==> ContextCode(PhoneSubTypeTag(k).value).None?
    ensures forall c :: PhoneSubTypeCode(ContextTag(c)).None?
  {
    forall k | PhoneSubTypeTag(k).Some?
      ensures ContextCode(PhoneSubTypeTag(k).value).None?
    {
      if k == PhoneLandline {} else if k == PhoneMobile {} else if k == PhoneFax {} else if k == PhonePager {}
      else if k == PhoneVoice {} else if k == PhoneModem {} else if k == PhoneVideo {} else if k == PhoneCar {}
      else if k == PhoneBulletinBoard {} else if k == PhoneMessaging {} else if k == PhoneAssistant {} else {}
    }
    forall c
      ensures PhoneSubTypeCode(ContextTag(c)).None?
    {
      if c == ContextHome {} else if c == ContextWork {} else {}
    }
  }

  /** A context list survives the trip to tags and back, except that every unnamed context comes back as other. */
  lemma {:induction false} ContextsRoundTrip(contexts: seq<int>)
    ensures FilterMap(ContextCode, Map(ContextTag, contexts)) == Map(NormalContext, contexts)
    decreases |contexts|
  {
    if contexts != [] {
      assert Map(ContextTag, contexts) == [ContextTag(contexts[0])] + Map(ContextTag, contexts[1..]);
      FilterMapAppend(ContextCode, [ContextTag(contexts[0])], Map(ContextTag, contexts[1..]));
      assert FilterMap(ContextCode, [ContextTag(contexts[0])]) == [NormalContext(contexts[0])] + FilterMap(ContextCode, []);
      ContextsRoundTrip(contexts[1..]);
      assert Map(NormalContext, contexts) == [NormalContext(contexts[0])] + Map(NormalContext, contexts[1..]);
    }
  }

  /** A tag list made only of context tags survives the trip to contexts and back. */
  lemma {:induction false} ContextTagsRoundTrip(tags: seq<string>)
    requires forall i :: 0 <= i < |tags| ==> ContextCode(tags[i]).Some?
    ensures Map(ContextTag, FilterMap(ContextCode, tags)) == tags
    decreases |tags|
  {
    if tags != [] {
      ContextTagsRoundTrip(tags[1..]);
      var rest := FilterMap(ContextCode, tags[1..]);
      assert FilterMap(ContextCode, tags) == [ContextCode(tags[0]).value] + rest;
      assert Map(ContextTag, [ContextCode(tags[0]).value] + rest) == [ContextTag(ContextCode(tags[0]).value)] + Map(ContextTag, rest);
    }
  }

  lemma AddressSubTypesRoundTrip(subTypes: seq<int>)
    ensures FilterMap(AddressSubTypeCode, FilterMap(AddressSubTypeTag, subTypes)) == KnownTo(AddressSubTypeTag, subTypes)
  {
    AddressTablesInverse();
    FilterMapRoundTrip(AddressSubTypeTag, AddressSubTypeCode, subTypes);
  }

  lemma AccountSubTypesRoundTrip(subTypes: seq<int>)
    ensures FilterMap(AccountSubTypeCode, FilterMap(AccountSubTypeTag, subTypes)) == KnownTo(AccountSubTypeTag, subTypes)
  {
    AccountTablesInverse();
    FilterMapRoundTrip(AccountSubTypeTag, AccountSubTypeCode, subTypes);
  }

  lemma PhoneSubTypesRoundTrip(subTypes: seq<int>)
    ensures FilterMap(PhoneSubTypeCode, FilterMap(PhoneSubTypeTag, subTypes)) == KnownTo(PhoneSubTypeTag, subTypes)
  {
    PhoneTablesInverse();
    FilterMapRoundTrip(PhoneSubTypeTag, PhoneSubTypeCode, subTypes);
  }

  /**
   * A "type" parameter carries contexts and sub-types together. Because no
   * sub-type tag is a context tag and no context tag is a sub-type tag, each
   * decoder reads back exactly its own half of the combined list.
   */
  lemma PhoneTypeParameterSeparates(contexts: seq<int>, subTypes: seq<int>)
    ensures FilterMap(ContextCode, Map(ContextTag, contexts) + FilterMap(PhoneSubTypeTag, subTypes)) == Map(NormalContext, contexts)
    ensures FilterMap(PhoneSubTypeCode, Map(ContextTag, contexts) + FilterMap(PhoneSubTypeTag, subTypes)) == KnownTo(PhoneSubTypeTag, subTypes)
  {
    var tags := Map(ContextTag, contexts);
    var subs := FilterMap(PhoneSubTypeTag, subTypes);
    FilterMapAppend(ContextCode, tags, subs);
    FilterMapAppend(PhoneSubTypeCode, tags, subs);
    ContextsRoundTrip(contexts);
    PhoneTagsDisjointFromContexts();
    ForeignTagsIgnored(ContextCode, PhoneSubTypeTag, subTypes);
    FilterMapNoneKnown(PhoneSubTypeCode, tags);
    PhoneSubTypesRoundTrip(subTypes);
  }

  lemma AddressTypeParameterSeparates(contexts: seq<int>, subTypes: seq<int>)
    ensures FilterMap(ContextCode, Map(ContextTag, contexts) + FilterMap(AddressSubTypeTag, subTypes)) == Map(NormalContext, contexts)
    ensures FilterMap(AddressSubTypeCode, Map(ContextTag, contexts) + FilterMap(AddressSubTypeTag, subTypes)) == KnownTo(AddressSubTypeTag, subTypes)
  {
    var tags := Map(ContextTag, contexts);
    var subs := FilterMap(AddressSubTypeTag, subTypes);
    FilterMapAppend(ContextCode, tags, subs);
    FilterMapAppend(AddressSubTypeCode, tags, subs);
    ContextsRoundTrip(contexts);
    AddressTagsDisjointFromContexts();
    ForeignTagsIgnored(ContextCode, AddressSubTypeTag, subTypes);
    FilterMapNoneKnown(AddressSubTypeCode, tags);
    AddressSubTypesRoundTrip(subTypes);
  }

  lemma AccountTypeParameterSeparates(contexts: seq<int>, subTypes: seq<int>)
    ensures FilterMap(ContextCode, Map(ContextTag, contexts) + FilterMap(AccountSubTypeTag, subTypes)) == Map(NormalContext, contexts)
    ensures FilterMap(AccountSubTypeCode, Map(ContextTag, contexts) + FilterMap(AccountSubTypeTag, subTypes)) == KnownTo(AccountSubTypeTag, subTypes)
  {
    var tags := Map(ContextTag, contexts);
    var subs := FilterMap(AccountSubTypeTag, subTypes);
    FilterMapAppend(ContextCode, tags, subs);
    FilterMapAppend(AccountSubTypeCode, tags, subs);
    ContextsRoundTrip(contexts);
    AccountTagsDisjointFromContexts();
    ForeignTagsIgnored(ContextCode, AccountSubTypeTag, subTypes);
    FilterMapNoneKnown(AccountSubTypeCode, tags);
    AccountSubTypesRoundTrip(subTypes);
  }

  /** Every named protocol survives the trip to its tag and back. */
  lemma ProtocolRoundTrip(protocol: Protocol)
    requires protocol != ProtocolUnknown
    ensures ProtocolFromEnum(protocol).Some?
    ensures ProtocolFromString(ProtocolFromEnum(protocol).value) == protocol
  {
  }

  /** A tag survives the trip to a protocol and back exactly when it names one of the eight protocols. */
  lemma ProtocolTagRoundTrip(tag: string)
    ensures ProtocolFromEnum(ProtocolFromString(tag)) == Some(tag) <==> ProtocolFromString(tag) != ProtocolUnknown
  {
  }
}
