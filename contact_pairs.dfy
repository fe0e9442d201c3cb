/**
 * ManagerEngine::ContactPair: a stored contact together with the
 * FolksIndividual it was projected from. The pair owns one GObject
 * reference on its individual: the constructors take one, assignment
 * trades the old individual's reference for the new one's, and the
 * destructor releases it. g_object_ref and g_object_unref on NULL change no
 * count; GLib reports them as critical warnings, which are counted here.
 *
 * The reference counts are those the engine itself holds, keyed by the
 * individual's GObject handle; references Folks holds are not part of them.
 */
module ContactPairs {
  import opened Common
  import opened Contacts

  /** A contact and the handle of its individual; the default-constructed pair holds NULL. */
  datatype ContactPair = ContactPair(contact: Contact, individual: Option<nat>)

  /** ContactPair(): a default-constructed QContact and no individual. */
  const DefaultPair: ContactPair := ContactPair(EmptyContact, None)

  // ---------------------------------------------------------------- counts

  /** The number of references held on `h`. */
  function Count(counts: map<nat, int>, h: nat): int
  {
    if h in counts then counts[h] else 0
  }

  /** g_object_ref: one more reference on a non-NULL object. */
  function Reffed(counts: map<nat, int>, i: Option<nat>): (r: map<nat, int>)
    ensures forall h: nat :: Count(r, h) == Count(counts, h) + (if i == Some(h) then 1 else 0)
  {
    if i.Some? then counts[i.value := Count(counts, i.value) + 1] else counts
  }

  /** g_object_unref: one reference fewer on a non-NULL object. */
  function Unreffed(counts: map<nat, int>, i: Option<nat>): (r: map<nat, int>)
    ensures forall h: nat :: Count(r, h) == Count(counts, h) - (if i == Some(h) then 1 else 0)
  {
    if i.Some? then counts[i.value := Count(counts, i.value) - 1] else counts
  }

  /** The critical warnings a g_object_ref or g_object_unref raises: one for NULL. */
  function NullWarnings(i: Option<nat>): nat
  {
    if i.None? then 1 else 0
  }

  /** The counts after the destructor: released only when the pair holds an individual. */
  function Destroyed(counts: map<nat, int>, p: ContactPair): map<nat, int>
  {
    if p.individual.Some? then Unreffed(counts, p.individual) else counts
  }

  /** The counts after `target = other`: the target's individual released, then the other's referenced. */
  function Assigned(counts: map<nat, int>, target: ContactPair, other: ContactPair): map<nat, int>
  {
    Reffed(Unreffed(counts, target.individual), other.individual)
  }

  /** The ids whose pair holds individual `h`. */
  function HolderIds(pairs: map<ContactId, ContactPair>, h: nat): set<ContactId>
  {
    set id | id in pairs && pairs[id].individual == Some(h)
  }

  /** How many pairs of a table hold individual `h`. */
  function Holders(pairs: map<ContactId, ContactPair>, h: nat): nat
  {
    |HolderIds(pairs, h)|
  }

  /** The counts are exactly the references a table of pairs holds. */
  ghost predicate Balanced(counts: map<nat, int>, pairs: map<ContactId, ContactPair>)
  {
    forall h: nat :: Count(counts, h) == Holders(pairs, h)
  }

  // ---------------------------------------------------------------- the ledger

  /** The references the engine's pairs hold, and the critical warnings GLib raised for NULL ones. */
  class References {
    var counts: map<nat, int>
    var criticals: nat

    constructor ()
      ensures counts == map[] && criticals == 0
    {
      counts := map[];
      criticals := 0;
    }

    /** g_object_ref */
    method Ref(i: Option<nat>)
      modifies this
      ensures counts == Reffed(old(counts), i)
      ensures criticals == old(criticals) + NullWarnings(i)
    {
      if i.Some? {
        counts := counts[i.value := Count(counts, i.value) + 1];
      } else {
        criticals := criticals + 1;
      }
    }

    /** g_object_unref */
    method Unref(i: Option<nat>)
      modifies this
      ensures counts == Unreffed(old(counts), i)
      ensures criticals == old(criticals) + NullWarnings(i)
    {
      if i.Some? {
        counts := counts[i.value := Count(counts, i.value) - 1];
      } else {
        criticals := criticals + 1;
      }
    }

    /** ContactPair(c, i) */
    method NewPair(c: Contact, i: Option<nat>) returns (p: ContactPair)
      modifies this
      ensures p == ContactPair(c, i)
      ensures counts == Reffed(old(counts), i)
      ensures criticals == old(criticals) + NullWarnings(i)
    {
      Ref(i);
      p := ContactPair(c, i);
    }

    /** The copy constructor: references the other pair's individual, NULL included. */
    method CopyPair(other: ContactPair) returns (p: ContactPair)
      modifies this
      ensures p == other
      ensures counts == Reffed(old(counts), other.individual)
      ensures criticals == old(criticals) + NullWarnings(other.individual)
    {
      Ref(other.individual);
      p := ContactPair(other.contact, other.individual);
    }

    /** operator=: the new value of `target`, after the old individual was released and the new one referenced. */
    method AssignPair(target: ContactPair, other: ContactPair) returns (p: ContactPair)
      modifies this
      ensures p == other
      ensures counts == Assigned(old(counts), target, other)
      ensures criticals == old(criticals) + NullWarnings(target.individual) + NullWarnings(other.individual)
    {
      Unref(target.individual);
      Ref(other.individual);
      p := ContactPair(other.contact, other.individual);
    }

    /** The destructor: releases the individual only when there is one, so it raises no warning. */
    method DestroyPair(p: ContactPair)
      modifies this
      ensures counts == Destroyed(old(counts), p)
      ensures criticals == old(criticals)
    {
      if p.individual.Some? {
        Unref(p.individual);
      }
    }
  }

  // ---------------------------------------------------------------- what the pair promises

  /** A pair copied and later destroyed leaves every count as it was. */
  lemma CopyThenDestroy(counts: map<nat, int>, p: ContactPair, h: nat)
    ensures Count(Destroyed(Reffed(counts, p.individual), p), h) == Count(counts, h)
  {
  }

  /** Assignment moves one reference from the old individual to the new one and changes no other count. */
  lemma AssignmentMovesReference(counts: map<nat, int>, target: ContactPair, other: ContactPair, h: nat)
    ensures Count(Assigned(counts, target, other), h) ==
      Count(counts, h) - (if target.individual == Some(h) then 1 else 0) + (if other.individual == Some(h) then 1 else 0)
    ensures target.individual == other.individual ==> Count(Assigned(counts, target, other), h) == Count(counts, h)
  {
  }

  /** The default pair: destroying it is silent, but copying or assigning it raises a warning for NULL. */
  lemma DefaultPairWarnings(counts: map<nat, int>)
    ensures Destroyed(counts, DefaultPair) == counts
    ensures Reffed(counts, DefaultPair.individual) == counts && NullWarnings(DefaultPair.individual) == 1
  {
  }

  /** Storing a pair under an id: the pair it replaces stops holding, the new one starts. */
  lemma HoldersAfterStore(pairs: map<ContactId, ContactPair>, id: ContactId, p: ContactPair, h: nat)
    ensures Holders(pairs[id := p], h) ==
      Holders(pairs, h) - (if id in pairs && pairs[id].individual == Some(h) then 1 else 0)
        + (if p.individual == Some(h) then 1 else 0)
  {
    var before := HolderIds(pairs, h);
    var after := HolderIds(pairs[id := p], h);
    var rest := before - {id};
    assert after == if p.individual == Some(h) then rest + {id} else rest;
    if id in before {
      assert before == rest + {id};
    } else {
      assert before == rest;
    }
  }

  /** Removing an id: its pair stops holding. */
  lemma HoldersAfterRemove(pairs: map<ContactId, ContactPair>, id: ContactId, h: nat)
    ensures Holders(pairs - {id}, h) == Holders(pairs, h) - (if id in pairs && pairs[id].individual == Some(h) then 1 else 0)
  {
    var before := HolderIds(pairs, h);
    var after := HolderIds(pairs - {id}, h);
    assert after == before - {id};
    if id in before {
      assert before == after + {id};
    }
  }
}
