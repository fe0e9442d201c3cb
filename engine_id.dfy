/**
 * Folks::EngineId (qt-folks/engineid.cpp): the engine-specific part of a
 * QContactId. Identity is the Folks individual id alone; the manager URI is
 * carried along but never compared.
 */
module EngineIds {

  /** An engine id of this backend. */
  datatype EngineId = EngineId(folksId: string, managerUri: string)

  /**
   * Any QContactEngineId an id may be compared with: one of ours, or one
   * belonging to another backend (the dynamic_cast fails for those).
   */
  datatype AnyEngineId = Ours(id: EngineId) | Foreign(foreignUri: string, foreignKey: string)

  /** QString's operator<: lexicographic order of the character codes, a proper prefix first. */
  predicate StringLess(a: string, b: string)
    decreases |a|
  {
    if b == [] then false
    else if a == [] then true
    else if a[0] != b[0] then a[0] < b[0]
    else StringLess(a[1..], b[1..])
  }

  /** The name of the backend, as managerName() reports it. */
  const ManagerName: string := "folks"

  /**
   * QContactManager::buildUri("folks", parameters) for parameters already in
   * key order: "qtcontacts:folks:" followed by key=value pairs joined by '&'.
   * The escaping buildUri applies to ':', '=' and '&' inside keys and values
   * is not modelled: the strings are joined as they are.
   */
  function BuildUri(parameters: seq<(string, string)>): (uri: string)
    ensures |"qtcontacts:folks:"| <= |uri| && uri[..|"qtcontacts:folks:"|] == "qtcontacts:folks:"
  {
    "qtcontacts:" + ManagerName + ":" + JoinParameters(parameters)
  }

  /** The key=value pairs joined by '&', unescaped. */
  function JoinParameters(parameters: seq<(string, string)>): string
  {
    if parameters == [] then ""
    else if |parameters| == 1 then parameters[0].0 + "=" + parameters[0].1
    else parameters[0].0 + "=" + parameters[0].1 + "&" + JoinParameters(parameters[1..])
  }

  /** The constructor taking a parameter map: the URI is built for this backend. */
  function FromParameters(parameters: seq<(string, string)>, folksId: string): (id: EngineId)
    ensures id.folksId == folksId && id.managerUri == BuildUri(parameters)
  {
    EngineId(folksId, BuildUri(parameters))
  }

  /** EngineId::isEqualTo */
  predicate IsEqualTo(self: EngineId, other: AnyEngineId)
  {
    match other
    case Foreign(_, _) => false
    case Ours(o) => o.folksId == self.folksId
  }

  /** EngineId::isLessThan */
  predicate IsLessThan(self: EngineId, other: AnyEngineId)
  {
    match other
    case Foreign(_, _) => false
    case Ours(o) => StringLess(self.folksId, o.folksId)
  }

  /** EngineId::clone: a fresh copy with both members. */
  function Clone(self: EngineId): (copy: EngineId)
    ensures IsEqualTo(self, Ours(copy)) && IsEqualTo(copy, Ours(self))
    ensures copy.managerUri == self.managerUri
  {
    EngineId(self.folksId, self.managerUri)
  }

  /** EngineId::toString: the Folks individual id. */
  function ToString(self: EngineId): string
  {
    self.folksId
  }

  /** EngineId::hash: qHash of the Folks id; `qHash` stands for Qt's string hash. */
  function Hash(self: EngineId, qHash: string -> int): int
  {
    qHash(self.folksId)
  }

  // ---------------------------------------------------------------- properties

  /** Equality is an equivalence on this backend's ids and never holds across backends. */
  lemma EqualityIsEquivalence(a: EngineId, b: EngineId, c: EngineId, foreignUri: string, foreignKey: string)
    ensures IsEqualTo(a, Ours(a))
    ensures IsEqualTo(a, Ours(b)) ==> IsEqualTo(b, Ours(a))
    ensures IsEqualTo(a, Ours(b)) && IsEqualTo(b, Ours(c)) ==> IsEqualTo(a, Ours(c))
    ensures !IsEqualTo(a, Foreign(foreignUri, foreignKey))
  {
  }

  /** The manager URI plays no part in identity. */
  lemma ManagerUriIgnored(folksId: string, uri1: string, uri2: string)
    ensures IsEqualTo(EngineId(folksId, uri1), Ours(EngineId(folksId, uri2)))
    ensures !IsLessThan(EngineId(folksId, uri1), Ours(EngineId(folksId, uri2)))
  {
    StringLessIrreflexive(folksId);
  }

  /** Two ids print alike exactly when they are equal. */
  lemma ToStringIdentifies(a: EngineId, b: EngineId)
    ensures ToString(a) == ToString(b) <==> IsEqualTo(a, Ours(b))
  {
  }

  /** Equal ids hash alike, whatever the string hash is. */
  lemma EqualIdsHashAlike(a: EngineId, b: EngineId, qHash: string -> int)
    requires IsEqualTo(a, Ours(b))
    ensures Hash(a, qHash) == Hash(b, qHash)
  {
  }

  lemma {:induction false} StringLessIrreflexive(a: string)
    ensures !StringLess(a, a)
    decreases |a|
  {
    if a != [] {
      StringLessIrreflexive(a[1..]);
    }
  }

  lemma {:induction false} StringLessTransitive(a: string, b: string, c: string)
    requires StringLess(a, b) && StringLess(b, c)
    ensures StringLess(a, c)
    decreases |a|
  {
    if a != [] && a[0] == b[0] && b[0] == c[0] {
      StringLessTransitive(a[1..], b[1..], c[1..]);
    }
  }

  /** Any two strings are equal or ordered one way round, and never both ways. */
  lemma {:induction false} StringLessTrichotomy(a: string, b: string)
    ensures a == b || StringLess(a, b) || StringLess(b, a)
    ensures !(StringLess(a, b) && StringLess(b, a))
    decreases |a|
  {
    if a != [] && b != [] && a[0] == b[0] {
      StringLessTrichotomy(a[1..], b[1..]);
      if a[1..] == b[1..] {
        assert a == [a[0]] + a[1..] && b == [b[0]] + b[1..];
      }
    }
  }

  /** isLessThan is a strict total order on this backend's ids, consistent with isEqualTo. */
  lemma LessThanIsStrictOrder(a: EngineId, b: EngineId, c: EngineId)
    ensures !IsLessThan(a, Ours(a))
    ensures IsLessThan(a, Ours(b)) && IsLessThan(b, Ours(c)) ==> IsLessThan(a, Ours(c))
    ensures IsLessThan(a, Ours(b)) ==> !IsEqualTo(a, Ours(b)) && !IsLessThan(b, Ours(a))
    ensures IsEqualTo(a, Ours(b)) || IsLessThan(a, Ours(b)) || IsLessThan(b, Ours(a))
  {
    StringLessIrreflexive(a.folksId);
    StringLessTrichotomy(a.folksId, b.folksId);
    if IsLessThan(a, Ours(b)) && IsLessThan(b, Ours(c)) {
      StringLessTransitive(a.folksId, b.folksId, c.folksId);
    }
    if IsLessThan(a, Ours(b)) {
      StringLessIrreflexive(b.folksId);
    }
  }

  /** An id of another backend is never ordered before or after by ours. */
  lemma ForeignIdsUnordered(a: EngineId, foreignUri: string, foreignKey: string)
    ensures !IsLessThan(a, Foreign(foreignUri, foreignKey))
  {
  }
}
