/**
 * The ManagerEngine: the identity map between QtContacts ids and Folks
 * individuals (m_allContacts and m_individualsToIds), the routing of Folks
 * notifications into it, the QContactManagerEngine facade over it, and the
 * dispatcher of asynchronous save, remove and fetch requests.
 *
 * Individuals and personas are GObject handles. What the engine asks of
 * Folks at a given moment is passed in: an individual's record when Folks
 * reports it, the personas of an individual, the aggregator's primary
 * store. Signals the engine emits go to `signals` (the notifier and the Qt
 * signal always fire together, so one entry stands for both); requests made
 * of Folks and of the request objects go to `calls`.
 */
module Engine {
  import opened Common
  import opened Contacts
  import opened Folks
  import opened ContactPairs
  import Projector
  import WriteBack
  import CreatePath

  // ---------------------------------------------------------------- manager information

  /** QVariant types a manager can declare support for. */
  datatype VariantType = VariantString | VariantInt | VariantBool | VariantDateTime | VariantUrl | VariantList

  const ManagerName: string := "folks"
  const ManagerVersion: int := 1
  const SupportedContactTypes: seq<ContactType> := [TypeContact]
  const SupportedDataTypes: seq<VariantType> := [VariantString]

  /** The manager serves plain contacts only, and string data only. */
  lemma ManagerInfo()
    ensures ManagerName == "folks" && ManagerVersion == 1
    ensures |SupportedContactTypes| == 1 && TypeGroup !in SupportedContactTypes
    ensures |SupportedDataTypes| == 1 && VariantString in SupportedDataTypes
  {
  }

  // ---------------------------------------------------------------- the index

  /** The two maps, read together. */
  datatype Index = Index(allContacts: map<ContactId, ContactPair>, individualsToIds: map<nat, ContactId>)

  /**
   * The link addIndividual and removeIndividual maintain: every known
   * individual's id leads to a pair holding that individual, every stored
   * pair holds an individual filed under its id, and a contact is stored
   * under its own id.
   */
  predicate Linked(ix: Index)
  {
    (forall h :: h in ix.individualsToIds ==>
      ix.individualsToIds[h] in ix.allContacts && ix.allContacts[ix.individualsToIds[h]].individual == Some(h)) &&
    (forall id :: id in ix.allContacts ==>
      ix.allContacts[id].individual.Some? &&
      ix.allContacts[id].individual.value in ix.individualsToIds &&
      ix.individualsToIds[ix.allContacts[id].individual.value] == id &&
      ix.allContacts[id].contact.id == id)
  }

  /** The id addIndividual gives an individual whose Folks id hashes to `hash`. */
  function IdFor(managerUri: string, hash: uint32): ContactId
  {
    ContactId(managerUri, Projector.DbIdToByteArray(hash, false))
  }

  /** Both inserts of addIndividual: the pair under the id, the id under the individual. */
  function Added(ix: Index, id: ContactId, c: Contact, h: nat): Index
  {
    Index(ix.allContacts[id := ContactPair(c, Some(h))], ix.individualsToIds[h := id])
  }

  /** removeIndividual: a known individual leaves both maps; an unknown one changes nothing. */
  function Removed(ix: Index, h: nat): Index
  {
    if h in ix.individualsToIds then
      Index(ix.allContacts - {ix.individualsToIds[h]}, ix.individualsToIds - {h})
    else ix
  }

  /** The id removeIndividual returns: the individual's id, or the null id for an unknown one. */
  function RemovedId(ix: Index, h: nat): ContactId
  {
    if h in ix.individualsToIds then ix.individualsToIds[h] else NullId
  }

  /** addIndividual's result: the null id for the self individual. */
  function AddedId(managerUri: string, qHash: string -> uint32, individual: Individual): ContactId
  {
    if individual.isUser then NullId else IdFor(managerUri, qHash(individual.id))
  }

  /**
   * addIndividual's effect on the maps: the contact `project` builds is
   * filed; the self individual is skipped. The engine's `project` is
   * Projector.Materialized, the update routines run in order on a new
   * contact.
   */
  function AddedTo(ix: Index, managerUri: string, qHash: string -> uint32, project: (string, uint32, Individual) -> Contact,
                   individual: Individual): Index
  {
    if individual.isUser then ix
    else
      var hash := qHash(individual.id);
      Added(ix, IdFor(managerUri, hash), project(managerUri, hash, individual), individual.handle)
  }

  /** `m_allContacts[id]` on the non-const map: the pair, or a default pair inserted for an unknown id. */
  function Lookup(all: map<ContactId, ContactPair>, id: ContactId): ContactPair
  {
    if id in all then all[id] else DefaultPair
  }

  /**
   * A field-notify callback: the individual's stored contact rerun through
   * the property's routine `update` (the engine's is Projector.Update).
   */
  function Notified(ix: Index, update: (Projector.Property, Contact, Individual) -> Contact, p: Projector.Property,
                    individual: Individual): Index
  {
    if individual.handle !in ix.individualsToIds then ix
    else
      var id := ix.individualsToIds[individual.handle];
      var pair := Lookup(ix.allContacts, id);
      Index(ix.allContacts[id := pair.(contact := update(p, pair.contact, individual))], ix.individualsToIds)
  }

  // ---------------------------------------------------------------- what the index promises

  /**
   * Adding keeps the link exactly when the new id is free or already the
   * individual's, and the individual is unknown or already filed under it:
   * two individuals whose ids hash alike break it.
   */
  lemma AddedLinked(ix: Index, id: ContactId, c: Contact, h: nat)
    requires Linked(ix) && c.id == id
    ensures Linked(Added(ix, id, c, h)) <==>
      (h in ix.individualsToIds ==> ix.individualsToIds[h] == id) &&
      (id in ix.allContacts ==> ix.allContacts[id].individual == Some(h))
  {
    if (h in ix.individualsToIds ==> ix.individualsToIds[h] == id) &&
       (id in ix.allContacts ==> ix.allContacts[id].individual == Some(h)) {
      AddedKeepsLink(ix, id, c, h);
    } else {
      AddedBreaksLink(ix, id, c, h);
    }
  }

  /** The "if" half of AddedLinked. */
  lemma AddedKeepsLink(ix: Index, id: ContactId, c: Contact, h: nat)
    requires Linked(ix) && c.id == id
    requires h in ix.individualsToIds ==> ix.individualsToIds[h] == id
    requires id in ix.allContacts ==> ix.allContacts[id].individual == Some(h)
    ensures Linked(Added(ix, id, c, h))
  {
    var after := Added(ix, id, c, h);
    forall g | g in after.individualsToIds
      ensures after.individualsToIds[g] in after.allContacts && after.allContacts[after.individualsToIds[g]].individual == Some(g)
    {
      if g != h {
        assert ix.individualsToIds[g] != id;
      }
    }
    forall k | k in after.allContacts
      ensures after.allContacts[k].individual.Some? && after.allContacts[k].individual.value in after.individualsToIds
      ensures after.individualsToIds[after.allContacts[k].individual.value] == k && after.allContacts[k].contact.id == k
    {
      if k != id {
        assert ix.allContacts[k].individual != Some(h);
      }
    }
  }

  /** The "only if" half of AddedLinked. */
  lemma AddedBreaksLink(ix: Index, id: ContactId, c: Contact, h: nat)
    requires Linked(ix)
    requires !(h in ix.individualsToIds ==> ix.individualsToIds[h] == id) ||
      !(id in ix.allContacts ==> ix.allContacts[id].individual == Some(h))
    ensures !Linked(Added(ix, id, c, h))
  {
    var after := Added(ix, id, c, h);
    if h in ix.individualsToIds && ix.individualsToIds[h] != id {
      var previous := ix.individualsToIds[h];
      assert previous in after.allContacts && after.allContacts[previous].individual == Some(h);
      assert after.individualsToIds[h] != previous;
    } else {
      var g := ix.allContacts[id].individual.value;
      assert g in after.individualsToIds && after.individualsToIds[g] == id;
      assert after.allContacts[id].individual != Some(g);
    }
  }

  /** Removing an individual keeps the link, and leaves no trace of the individual or its id. */
  lemma RemovedLinked(ix: Index, h: nat)
    requires Linked(ix)
    ensures Linked(Removed(ix, h))
    ensures h !in Removed(ix, h).individualsToIds
    ensures h in ix.individualsToIds ==> RemovedId(ix, h) !in Removed(ix, h).allContacts
  {
    if h in ix.individualsToIds {
      var id := ix.individualsToIds[h];
      var after := Removed(ix, h);
      forall g | g in after.individualsToIds
        ensures after.individualsToIds[g] in after.allContacts && after.allContacts[after.individualsToIds[g]].individual == Some(g)
      {
        assert ix.individualsToIds[g] != id;
      }
    }
  }

  /** Removing what was just added to a fresh index restores the index. */
  lemma RemoveUndoesAdd(ix: Index, id: ContactId, c: Contact, h: nat)
    requires h !in ix.individualsToIds && id !in ix.allContacts
    ensures Removed(Added(ix, id, c, h), h) == ix
    ensures RemovedId(Added(ix, id, c, h), h) == id
  {
    var after := Removed(Added(ix, id, c, h), h);
    assert after.allContacts == ix.allContacts;
    assert after.individualsToIds == ix.individualsToIds;
  }

  /**
   * Two individuals whose Folks ids hash alike: the second overwrites the
   * first one's contact, and once the first is removed the second is still
   * known but its contact is gone.
   */
  lemma CollidingIndividualsLoseContact(ix: Index, id: ContactId, c: Contact, d: Contact, a: nat, b: nat)
    requires a != b
    ensures var both := Added(Added(ix, id, c, a), id, d, b);
      && both.allContacts[id] == ContactPair(d, Some(b))
      && a in both.individualsToIds && both.individualsToIds[a] == id
      && !Linked(both)
    ensures var after := Removed(Added(Added(ix, id, c, a), id, d, b), a);
      b in after.individualsToIds && after.individualsToIds[b] !in after.allContacts
  {
    var both := Added(Added(ix, id, c, a), id, d, b);
    assert both.individualsToIds[a] == id && both.allContacts[id].individual != Some(a);
  }

  /** addIndividual files a non-self individual's new contact under the contact's own id. */
  lemma AddedToFilesContact(ix: Index, managerUri: string, qHash: string -> uint32, individual: Individual)
    requires !individual.isUser
    ensures var id := AddedId(managerUri, qHash, individual);
      var after := AddedTo(ix, managerUri, qHash, Projector.Materialized, individual);
      && id != NullId
      && id in after.allContacts && after.individualsToIds[individual.handle] == id
      && after.allContacts[id] == ContactPair(Projector.Materialized(managerUri, qHash(individual.id), individual), Some(individual.handle))
      && after.allContacts[id].contact.id == id
  {
    Projector.MaterializedId(managerUri, qHash(individual.id), individual);
  }

  /** A notify callback keeps the link: it changes one contact in place and never its id. */
  lemma NotifiedLinked(ix: Index, p: Projector.Property, individual: Individual)
    requires Linked(ix)
    ensures Linked(Notified(ix, Projector.Update, p, individual))
    ensures Notified(ix, Projector.Update, p, individual).individualsToIds == ix.individualsToIds
    ensures Notified(ix, Projector.Update, p, individual).allContacts.Keys == ix.allContacts.Keys
  {
    if individual.handle in ix.individualsToIds {
      var id := ix.individualsToIds[individual.handle];
      Projector.UpdateKeepsIds(p, ix.allContacts[id].contact, individual);
    }
  }

  /**
   * A notify callback for a group other than name and label leaves the
   * individual's contact with exactly the group its routine derives, and
   * touches no other contact.
   */
  lemma NotifiedRefreshesGroup(ix: Index, p: Projector.Property, individual: Individual)
    requires Linked(ix) && individual.handle in ix.individualsToIds && !Projector.SetsLabel(p)
    ensures var id := ix.individualsToIds[individual.handle];
      var after := Notified(ix, Projector.Update, p, individual).allContacts;
      && id in after
      && DetailsOf(after[id].contact, Projector.GroupKind(p)) == Projector.Group(p, individual)
      && (forall k :: k != Projector.GroupKind(p) ==> DetailsOf(after[id].contact, k) == DetailsOf(ix.allContacts[id].contact, k))
      && (forall other :: other in ix.allContacts && other != id ==> after[other] == ix.allContacts[other])
  {
    var id := ix.individualsToIds[individual.handle];
    Projector.UpdateReplacesGroup(p, ix.allContacts[id].contact, individual);
  }

  /** A second notification about an unchanged property changes nothing more. */
  lemma NotifiedIdempotent(ix: Index, p: Projector.Property, individual: Individual)
    ensures Notified(Notified(ix, Projector.Update, p, individual), Projector.Update, p, individual) == Notified(ix, Projector.Update, p, individual)
  {
    if individual.handle in ix.individualsToIds {
      var id := ix.individualsToIds[individual.handle];
      var pair := Lookup(ix.allContacts, id);
      Projector.UpdateIdempotent(p, pair.contact, individual);
      var once := Notified(ix, Projector.Update, p, individual);
      assert once.allContacts[id] == pair.(contact := Projector.Update(p, pair.contact, individual));
      assert once.allContacts[id := once.allContacts[id].(contact := Projector.Update(p, once.allContacts[id].contact, individual))]
        == once.allContacts;
    }
  }

  // ---------------------------------------------------------------- individualsChangedCb

  /** The removals of one batch, in turn. */
  function RemovedAll(ix: Index, removed: seq<nat>): Index
    decreases |removed|
  {
    if removed == [] then ix else Removed(RemovedAll(ix, removed[..|removed| - 1]), removed[|removed| - 1])
  }

  /** The non-null ids the removals return, in order. */
  function RemovedIds(ix: Index, removed: seq<nat>): (ids: seq<ContactId>)
    ensures forall i :: 0 <= i < |ids| ==> ids[i] != NullId
    decreases |removed|
  {
    if removed == [] then []
    else
      var init := removed[..|removed| - 1];
      var id := RemovedId(RemovedAll(ix, init), removed[|removed| - 1]);
      RemovedIds(ix, init) + (if id != NullId then [id] else [])
  }

  /** The additions of one batch, in turn. */
  function AddedAll(ix: Index, managerUri: string, qHash: string -> uint32, project: (string, uint32, Individual) -> Contact,
                    added: seq<Individual>): Index
    decreases |added|
  {
    if added == [] then ix
    else AddedTo(AddedAll(ix, managerUri, qHash, project, added[..|added| - 1]), managerUri, qHash, project, added[|added| - 1])
  }

  /** The non-null ids the additions return, in order: one per individual other than the self one. */
  function AddedIds(managerUri: string, qHash: string -> uint32, added: seq<Individual>): (ids: seq<ContactId>)
    ensures forall i :: 0 <= i < |ids| ==> ids[i] != NullId
    decreases |added|
  {
    if added == [] then []
    else
      var last := added[|added| - 1];
      AddedIds(managerUri, qHash, added[..|added| - 1]) + (if last.isUser then [] else [IdFor(managerUri, qHash(last.id))])
  }

  /** The avatar-cache requests the additions start, in order. */
  function AvatarRequests(managerUri: string, qHash: string -> uint32, added: seq<Individual>): seq<Effect>
    decreases |added|
  {
    if added == [] then []
    else AvatarRequests(managerUri, qHash, added[..|added| - 1]) + AvatarRequest(managerUri, qHash, added[|added| - 1])
  }

  /** The avatar-cache request addIndividual starts for an individual whose avatar is not cached yet. */
  function AvatarRequest(managerUri: string, qHash: string -> uint32, individual: Individual): seq<Effect>
  {
    if !individual.isUser && Projector.AvatarPending(individual).Some?
    then [StoreAvatar(IdFor(managerUri, qHash(individual.id)), Projector.AvatarPending(individual).value)]
    else []
  }

  /** The avatar-cache request a callback for `p` starts: only the avatar routine starts one. */
  function AvatarStore(contactId: ContactId, p: Projector.Property, individual: Individual): seq<Effect>
  {
    if p == Projector.AvatarChanged && Projector.AvatarPending(individual).Some?
    then [StoreAvatar(contactId, Projector.AvatarPending(individual).value)]
    else []
  }

  /** The signals closing a batch: the removed ids, then the added ones, each only when there are some. */
  function BatchSignals(removedIds: seq<ContactId>, addedIds: seq<ContactId>): seq<Notification>
  {
    (if removedIds != [] then [ContactsRemoved(removedIds)] else []) +
    (if addedIds != [] then [ContactsAdded(addedIds)] else [])
  }

  /** One more individual at the end of a batch: one more addition, id and avatar request. */
  lemma AddedStep(ix: Index, managerUri: string, qHash: string -> uint32, project: (string, uint32, Individual) -> Contact,
                  added: seq<Individual>, j: nat)
    requires j < |added|
    ensures AddedAll(ix, managerUri, qHash, project, added[..j + 1]) ==
      AddedTo(AddedAll(ix, managerUri, qHash, project, added[..j]), managerUri, qHash, project, added[j])
    ensures AddedIds(managerUri, qHash, added[..j + 1]) ==
      AddedIds(managerUri, qHash, added[..j]) + (if added[j].isUser then [] else [AddedId(managerUri, qHash, added[j])])
    ensures AvatarRequests(managerUri, qHash, added[..j + 1]) ==
      AvatarRequests(managerUri, qHash, added[..j]) + AvatarRequest(managerUri, qHash, added[j])
  {
    assert added[..j + 1][..j] == added[..j];
  }

  /** After the removals of a batch an individual is known exactly when it was known and not removed. */
  lemma {:induction false} RemovedAllKnown(ix: Index, removed: seq<nat>, h: nat)
    ensures h in RemovedAll(ix, removed).individualsToIds <==> h in ix.individualsToIds && h !in removed
    decreases |removed|
  {
    if removed != [] {
      var init := removed[..|removed| - 1];
      RemovedAllKnown(ix, init, h);
      assert removed == init + [removed[|removed| - 1]];
    }
  }

  /** The individuals of a batch of additions that get a contact: all but the self individual. */
  function AddedHandles(added: seq<Individual>): set<nat>
    decreases |added|
  {
    if added == [] then {}
    else
      var last := added[|added| - 1];
      AddedHandles(added[..|added| - 1]) + (if last.isUser then {} else {last.handle})
  }

  /** An individual gets a contact from a batch exactly when it is listed there and is not the self individual. */
  lemma {:induction false} AddedHandlesMeaning(added: seq<Individual>, h: nat)
    ensures h in AddedHandles(added) <==> exists i :: 0 <= i < |added| && added[i].handle == h && !added[i].isUser
    decreases |added|
  {
    if added != [] {
      var init := added[..|added| - 1];
      AddedHandlesMeaning(init, h);
      if exists i :: 0 <= i < |init| && init[i].handle == h && !init[i].isUser {
        var i :| 0 <= i < |init| && init[i].handle == h && !init[i].isUser;
        assert added[i] == init[i];
      }
      if exists i :: 0 <= i < |added| && added[i].handle == h && !added[i].isUser {
        var i :| 0 <= i < |added| && added[i].handle == h && !added[i].isUser;
        if i < |init| {
          assert init[i] == added[i];
        }
      }
    }
  }

  /** One addition files the individual unless it is the self one, and keeps every other individual. */
  lemma AddedToKnown(ix: Index, managerUri: string, qHash: string -> uint32, project: (string, uint32, Individual) -> Contact,
                     individual: Individual)
    ensures AddedTo(ix, managerUri, qHash, project, individual).individualsToIds.Keys ==
      ix.individualsToIds.Keys + (if individual.isUser then {} else {individual.handle})
  {
  }

  /** After the additions of a batch an individual is known exactly when it was known or the batch filed it. */
  lemma {:induction false} AddedAllKnown(ix: Index, managerUri: string, qHash: string -> uint32,
                                         project: (string, uint32, Individual) -> Contact, added: seq<Individual>)
    ensures AddedAll(ix, managerUri, qHash, project, added).individualsToIds.Keys == ix.individualsToIds.Keys + AddedHandles(added)
    decreases |added|
  {
    if added != [] {
      var init := added[..|added| - 1];
      AddedAllKnown(ix, managerUri, qHash, project, init);
      AddedToKnown(AddedAll(ix, managerUri, qHash, project, init), managerUri, qHash, project, added[|added| - 1]);
    }
  }

  /**
   * Removals come before additions: after a batch an individual is known
   * exactly when it was added (and is not the self individual), or was known
   * before and not removed. One both removed and added stays.
   */
  lemma BatchKnown(ix: Index, managerUri: string, qHash: string -> uint32, project: (string, uint32, Individual) -> Contact,
                   removed: seq<nat>, added: seq<Individual>, h: nat)
    ensures h in AddedAll(RemovedAll(ix, removed), managerUri, qHash, project, added).individualsToIds <==>
      (exists i :: 0 <= i < |added| && added[i].handle == h && !added[i].isUser) ||
      (h in ix.individualsToIds && h !in removed)
  {
    RemovedAllKnown(ix, removed, h);
    AddedAllKnown(RemovedAll(ix, removed), managerUri, qHash, project, added);
    AddedHandlesMeaning(added, h);
  }

  /** The added ids: exactly one per individual other than the self one. */
  lemma {:induction false} AddedIdsCount(managerUri: string, qHash: string -> uint32, added: seq<Individual>)
    ensures |AddedIds(managerUri, qHash, added)| == |set i | 0 <= i < |added| && !added[i].isUser|
    decreases |added|
  {
    if added != [] {
      var init := added[..|added| - 1];
      AddedIdsCount(managerUri, qHash, init);
      var before := set i | 0 <= i < |init| && !init[i].isUser;
      var now := set i | 0 <= i < |added| && !added[i].isUser;
      if added[|added| - 1].isUser {
        assert now == before;
      } else {
        assert now == before + {|init|};
      }
    }
  }

  // ---------------------------------------------------------------- the facade

  /** Contacts of the iteration order in turn that pass the filter. */
  function Passing(all: map<ContactId, ContactPair>, order: seq<ContactId>, filter: Contact -> bool): seq<Contact>
    decreases |order|
  {
    if order == [] then []
    else
      var id := order[|order| - 1];
      Passing(all, order[..|order| - 1], filter) + (if id in all && filter(all[id].contact) then [all[id].contact] else [])
  }

  /**
   * QContactManagerEngine::addSorted: the contact goes before the first
   * listed contact the sort orders put after it, else at the end.
   */
  function AddSorted(sorted: seq<Contact>, c: Contact, before: (Contact, Contact) -> bool): (r: seq<Contact>)
    ensures multiset(r) == multiset(sorted) + multiset{c}
    decreases |sorted|
  {
    if sorted == [] then [c]
    else if before(c, sorted[0]) then [c] + sorted
    else
      assert sorted == [sorted[0]] + sorted[1..];
      [sorted[0]] + AddSorted(sorted[1..], c, before)
  }

  /** With no contact to go before, addSorted appends. */
  lemma {:induction false} AddSortedAppends(sorted: seq<Contact>, c: Contact, before: (Contact, Contact) -> bool)
    requires forall i :: 0 <= i < |sorted| ==> !before(c, sorted[i])
    ensures AddSorted(sorted, c, before) == sorted + [c]
    decreases |sorted|
  {
    if sorted != [] {
      AddSortedAppends(sorted[1..], c, before);
      assert [sorted[0]] + (sorted[1..] + [c]) == sorted + [c];
    }
  }

  /** A listed contact is a stored contact that passes the filter, and under the link its id is a stored id. */
  lemma {:induction false} PassingMeaning(all: map<ContactId, ContactPair>, order: seq<ContactId>, filter: Contact -> bool, c: Contact)
    ensures c in Passing(all, order, filter) <==>
      exists i :: 0 <= i < |order| && order[i] in all && all[order[i]].contact == c && filter(c)
    decreases |order|
  {
    if order != [] {
      var init := order[..|order| - 1];
      PassingMeaning(all, init, filter, c);
      if exists i :: 0 <= i < |init| && init[i] in all && all[init[i]].contact == c && filter(c) {
        var i :| 0 <= i < |init| && init[i] in all && all[init[i]].contact == c && filter(c);
        assert order[i] == init[i];
      }
      if exists i :: 0 <= i < |order| && order[i] in all && all[order[i]].contact == c && filter(c) {
        var i :| 0 <= i < |order| && order[i] in all && all[order[i]].contact == c && filter(c);
        if i < |init| {
          assert init[i] == order[i];
        }
      }
    }
  }

  /** Under the link every listed contact carries the id it is stored under. */
  lemma PassingIdsStored(ix: Index, order: seq<ContactId>, filter: Contact -> bool, c: Contact)
    requires Linked(ix) && c in Passing(ix.allContacts, order, filter)
    ensures c.id in ix.allContacts && ix.allContacts[c.id].contact == c
  {
    PassingMeaning(ix.allContacts, order, filter, c);
  }

  /** The first persona in the primary store, in the order the personas are listed; none when the store is NULL. */
  function FirstInStore(personas: seq<Persona>, store: Option<nat>): Option<Persona>
    decreases |personas|
  {
    if personas == [] then None
    else if Some(personas[0].store) == store then Some(personas[0])
    else FirstInStore(personas[1..], store)
  }

  /** The primary persona is a listed persona of the primary store with none of that store before it; none means no persona is. */
  lemma {:induction false} FirstInStoreMeaning(personas: seq<Persona>, store: Option<nat>)
    ensures FirstInStore(personas, store).None? <==> forall i :: 0 <= i < |personas| ==> Some(personas[i].store) != store
    ensures FirstInStore(personas, store).Some? ==>
      exists i :: 0 <= i < |personas| && personas[i] == FirstInStore(personas, store).value &&
        Some(personas[i].store) == store && forall j :: 0 <= j < i ==> Some(personas[j].store) != store
    decreases |personas|
  {
    if personas != [] && Some(personas[0].store) != store {
      var rest := personas[1..];
      FirstInStoreMeaning(rest, store);
      forall i | 1 <= i < |personas| ensures personas[i] == rest[i - 1] { }
      if FirstInStore(rest, store).Some? {
        var k :| 0 <= k < |rest| && rest[k] == FirstInStore(rest, store).value &&
          Some(rest[k].store) == store && forall j :: 0 <= j < k ==> Some(rest[j].store) != store;
        assert personas[k + 1] == rest[k];
        forall j | 0 <= j < k + 1 ensures Some(personas[j].store) != store {
          if j > 0 {
            assert personas[j] == rest[j - 1];
          }
        }
      }
    } else if personas != [] {
      assert personas[0] == FirstInStore(personas, store).value;
    }
  }

  /** getPrimaryPersona: NULL for a NULL individual, else the first of its personas in the primary store. */
  method GetPrimaryPersona(individual: Option<nat>, personasOf: nat -> seq<Persona>, primaryStore: Option<nat>)
    returns (persona: Option<Persona>)
    ensures persona == if individual.None? then None else FirstInStore(personasOf(individual.value), primaryStore)
  {
    if individual.None? {
      return None;
    }
    var personas := personasOf(individual.value);
    persona := None;
    var i := 0;
    while persona.None? && i < |personas|
      invariant 0 <= i <= |personas|
      invariant persona.None? ==> FirstInStore(personas, primaryStore) == FirstInStore(personas[i..], primaryStore)
      invariant persona.Some? ==> persona == FirstInStore(personas, primaryStore)
      decreases |personas| - i
    {
      assert personas[i..][1..] == personas[i + 1..];
      if Some(personas[i].store) == primaryStore {
        persona := Some(personas[i]);
      }
      i := i + 1;
    }
    if persona.None? {
      assert personas[i..] == [];
    }
  }

  // ---------------------------------------------------------------- requests

  /** What the engine emits: the notifier's signal and the Qt signal, which always fire together. */
  datatype Notification =
    | ContactsAdded(addedIds: seq<ContactId>)
    | ContactsRemoved(removedIds: seq<ContactId>)
    | ContactsChanged(changedIds: seq<ContactId>)

  /** A closure handed to Folks with an asynchronous call, naming the request it completes. */
  datatype Closure =
    | AddClosure(request: nat, contact: Contact)
    | RemoveClosure(request: nat)

  /** What the engine asks of Folks, of the avatar cache and of the request objects. */
  datatype Effect =
    | StoreAvatar(contactId: ContactId, uri: string)
    | StateChanged(request: nat, state: CreatePath.RequestState)
    | SaveChain(trace: seq<WriteBack.Event>)
    | AddPersonaFromDetails(store: nat, details: map<CreatePath.PersonaDetail, CreatePath.DetailValue>, closure: nat)
    | RemoveIndividualCall(individual: Option<nat>, closure: nat)
    | SaveFinished(request: nat, saveUpdate: CreatePath.SaveUpdate)
    | RemoveFinished(request: nat, removeUpdate: CreatePath.RemoveUpdate)
    | FetchFinished(request: nat, contacts: seq<Contact>, error: CreatePath.ManagerError)

  /** A QContactAbstractRequest, by type; the fetch filter and sort orders are an abstract test and order. */
  datatype Request =
    | SaveRequest(handle: nat, contacts: seq<Contact>)
    | RemoveRequest(handle: nat, contactIds: seq<ContactId>)
    | FetchRequest(handle: nat, filter: Contact -> bool, sortBefore: (Contact, Contact) -> bool)
    | OtherRequest(handle: nat)

  /**
   * The save chain contactSaveChangesToFolks runs for a stored contact with
   * an individual, as `chain` traces it (the engine's is WriteBack.ChainTrace);
   * nothing otherwise.
   */
  function ChainFor(all: map<ContactId, ContactPair>, c: Contact, personasOf: nat -> seq<Persona>, store: Option<nat>,
                    chain: WriteBack.SaveData -> seq<WriteBack.Event>): seq<Effect>
  {
    if c.id in all && all[c.id].individual.Some? then
      var pair := all[c.id];
      [SaveChain(chain(WriteBack.SaveData(FirstInStore(personasOf(pair.individual.value), store), c, pair.contact, store)))]
    else []
  }

  /** How many contacts of a save have a null id. */
  function NullIds(cs: seq<Contact>): nat
    decreases |cs|
  {
    if cs == [] then 0 else NullIds(cs[..|cs| - 1]) + (if cs[|cs| - 1].id == NullId then 1 else 0)
  }

  /** One contact of a save: a null id creates a persona from the details hash, any other id runs the save chain. */
  function SaveCall(all: map<ContactId, ContactPair>, c: Contact, closure: nat, personasOf: nat -> seq<Persona>, store: nat,
                    chain: WriteBack.SaveData -> seq<WriteBack.Event>): seq<Effect>
  {
    if c.id == NullId then [AddPersonaFromDetails(store, CreatePath.PersonaDetailsHash(c), closure)]
    else ChainFor(all, c, personasOf, Some(store), chain)
  }

  /** A save request's contacts in turn; the k-th null-id contact gets closure `next + k`. */
  function SaveCalls(all: map<ContactId, ContactPair>, cs: seq<Contact>, next: nat, personasOf: nat -> seq<Persona>, store: nat,
                     chain: WriteBack.SaveData -> seq<WriteBack.Event>): seq<Effect>
    decreases |cs|
  {
    if cs == [] then []
    else
      var init := cs[..|cs| - 1];
      SaveCalls(all, init, next, personasOf, store, chain) + SaveCall(all, cs[|cs| - 1], next + NullIds(init), personasOf, store, chain)
  }

  /** The closures a save allocates: one per null-id contact. */
  function AddClosures(closures: map<nat, Closure>, cs: seq<Contact>, next: nat, request: nat): map<nat, Closure>
    decreases |cs|
  {
    if cs == [] then closures
    else
      var init := cs[..|cs| - 1];
      var m := AddClosures(closures, init, next, request);
      if cs[|cs| - 1].id == NullId then m[next + NullIds(init) := AddClosure(request, cs[|cs| - 1])] else m
  }

  /** A remove request's ids in turn: the k-th id uses closure `next + k`; unknown ids are skipped. */
  function RemoveCalls(all: map<ContactId, ContactPair>, ids: seq<ContactId>, next: nat): seq<Effect>
    decreases |ids|
  {
    if ids == [] then []
    else
      var init := ids[..|ids| - 1];
      var id := ids[|ids| - 1];
      RemoveCalls(all, init, next) + (if id in all then [RemoveIndividualCall(all[id].individual, next + |init|)] else [])
  }

  /** The closures a remove allocates: one per id, whether the id is known or not. */
  function RemoveClosures(closures: map<nat, Closure>, next: nat, n: nat, request: nat): map<nat, Closure>
    decreases n
  {
    if n == 0 then closures else RemoveClosures(closures, next, n - 1, request)[next + n - 1 := RemoveClosure(request)]
  }

  /** A remove request issues one call per known id and none for an unknown one. */
  lemma {:induction false} RemoveCallsMeaning(all: map<ContactId, ContactPair>, ids: seq<ContactId>, next: nat, e: Effect)
    ensures e in RemoveCalls(all, ids, next) <==>
      exists k :: 0 <= k < |ids| && ids[k] in all && e == RemoveIndividualCall(all[ids[k]].individual, next + k)
    decreases |ids|
  {
    if ids != [] {
      var init := ids[..|ids| - 1];
      RemoveCallsMeaning(all, init, next, e);
      if exists k :: 0 <= k < |init| && init[k] in all && e == RemoveIndividualCall(all[init[k]].individual, next + k) {
        var k :| 0 <= k < |init| && init[k] in all && e == RemoveIndividualCall(all[init[k]].individual, next + k);
        assert ids[k] == init[k];
      }
      if exists k :: 0 <= k < |ids| && ids[k] in all && e == RemoveIndividualCall(all[ids[k]].individual, next + k) {
        var k :| 0 <= k < |ids| && ids[k] in all && e == RemoveIndividualCall(all[ids[k]].individual, next + k);
        if k < |init| {
          assert init[k] == ids[k];
        }
      }
    }
  }

  /** The closure allocated for an unknown id is never handed to Folks, so nothing ever frees it. */
  lemma UnknownIdClosureLeaks(all: map<ContactId, ContactPair>, ids: seq<ContactId>, next: nat, k: nat, individual: Option<nat>)
    requires k < |ids| && ids[k] !in all
    ensures RemoveIndividualCall(individual, next + k) !in RemoveCalls(all, ids, next)
  {
    RemoveCallsMeaning(all, ids, next, RemoveIndividualCall(individual, next + k));
  }

  /** The closures of a remove are all new: allocated at `next` onwards, one per id. */
  lemma {:induction false} RemoveClosuresMeaning(closures: map<nat, Closure>, next: nat, n: nat, request: nat, k: nat)
    ensures k in RemoveClosures(closures, next, n, request) <==> k in closures || next <= k < next + n
    ensures next <= k < next + n ==> RemoveClosures(closures, next, n, request)[k] == RemoveClosure(request)
    ensures !(next <= k < next + n) && k in closures ==> RemoveClosures(closures, next, n, request)[k] == closures[k]
    decreases n
  {
    if n > 0 {
      RemoveClosuresMeaning(closures, next, n - 1, request, k);
    }
  }

  /** The save chain of a contact is one chain trace, or nothing. */
  lemma ChainForKinds(all: map<ContactId, ContactPair>, c: Contact, personasOf: nat -> seq<Persona>, store: Option<nat>,
                      chain: WriteBack.SaveData -> seq<WriteBack.Event>, e: Effect)
    requires e in ChainFor(all, c, personasOf, store, chain)
    ensures e.SaveChain?
  {
  }

  /** A save request issues only persona creations and save chains. */
  lemma {:induction false} SaveCallsKinds(all: map<ContactId, ContactPair>, cs: seq<Contact>, next: nat, personasOf: nat -> seq<Persona>,
                                          store: nat, chain: WriteBack.SaveData -> seq<WriteBack.Event>, e: Effect)
    requires e in SaveCalls(all, cs, next, personasOf, store, chain)
    ensures e.AddPersonaFromDetails? || e.SaveChain?
    decreases |cs|
  {
    var init := cs[..|cs| - 1];
    var c := cs[|cs| - 1];
    if e in SaveCalls(all, init, next, personasOf, store, chain) {
      SaveCallsKinds(all, init, next, personasOf, store, chain, e);
    } else if c.id != NullId {
      ChainForKinds(all, c, personasOf, Some(store), chain, e);
    }
  }

  /** One contact of a save creates a persona exactly when its id is null, from its details hash and with the closure given. */
  lemma SaveCallCreates(all: map<ContactId, ContactPair>, c: Contact, closure: nat, personasOf: nat -> seq<Persona>,
                        store: nat, chain: WriteBack.SaveData -> seq<WriteBack.Event>, e: Effect)
    requires e.AddPersonaFromDetails?
    ensures e in SaveCall(all, c, closure, personasOf, store, chain) <==>
      c.id == NullId && e == AddPersonaFromDetails(store, CreatePath.PersonaDetailsHash(c), closure)
  {
    if c.id != NullId && e in ChainFor(all, c, personasOf, Some(store), chain) {
      ChainForKinds(all, c, personasOf, Some(store), chain, e);
    }
  }

  /** A save request creates a persona, from its details hash, for each null-id contact, the k-th of them with closure `next + k`. */
  lemma {:induction false} SaveCallsCreate(all: map<ContactId, ContactPair>, cs: seq<Contact>, next: nat, personasOf: nat -> seq<Persona>,
                                           store: nat, chain: WriteBack.SaveData -> seq<WriteBack.Event>, e: Effect)
    requires e.AddPersonaFromDetails?
    ensures e in SaveCalls(all, cs, next, personasOf, store, chain) <==>
      exists i :: 0 <= i < |cs| && cs[i].id == NullId &&
                  e == AddPersonaFromDetails(store, CreatePath.PersonaDetailsHash(cs[i]), next + NullIds(cs[..i]))
    decreases |cs|
  {
    if cs != [] {
      var init := cs[..|cs| - 1];
      var c := cs[|cs| - 1];
      SaveCallsCreate(all, init, next, personasOf, store, chain, e);
      SaveCallCreates(all, c, next + NullIds(init), personasOf, store, chain, e);
      assert SaveCalls(all, cs, next, personasOf, store, chain) ==
        SaveCalls(all, init, next, personasOf, store, chain) + SaveCall(all, c, next + NullIds(init), personasOf, store, chain);
      if e in SaveCall(all, c, next + NullIds(init), personasOf, store, chain) {
        assert cs[..|cs| - 1] == init;
      } else if e in SaveCalls(all, init, next, personasOf, store, chain) {
        var i :| 0 <= i < |init| && init[i].id == NullId &&
                 e == AddPersonaFromDetails(store, CreatePath.PersonaDetailsHash(init[i]), next + NullIds(init[..i]));
        assert cs[i] == init[i] && cs[..i] == init[..i];
      } else {
        forall i | 0 <= i < |cs| && cs[i].id == NullId
          ensures e != AddPersonaFromDetails(store, CreatePath.PersonaDetailsHash(cs[i]), next + NullIds(cs[..i]))
        {
          if i < |init| {
            assert init[i] == cs[i] && init[..i] == cs[..i];
          } else {
            assert cs[..i] == init;
          }
        }
      }
    }
  }

  /** A save request runs the save chain for each contact with an id, and for no other. */
  lemma {:induction false} SaveCallsChain(all: map<ContactId, ContactPair>, cs: seq<Contact>, next: nat, personasOf: nat -> seq<Persona>,
                                          store: nat, chain: WriteBack.SaveData -> seq<WriteBack.Event>, trace: seq<WriteBack.Event>)
    ensures SaveChain(trace) in SaveCalls(all, cs, next, personasOf, store, chain) <==>
      exists i :: 0 <= i < |cs| && cs[i].id != NullId && SaveChain(trace) in ChainFor(all, cs[i], personasOf, Some(store), chain)
    decreases |cs|
  {
    if cs != [] {
      var init := cs[..|cs| - 1];
      var c := cs[|cs| - 1];
      SaveCallsChain(all, init, next, personasOf, store, chain, trace);
      assert SaveCalls(all, cs, next, personasOf, store, chain) ==
        SaveCalls(all, init, next, personasOf, store, chain) + SaveCall(all, c, next + NullIds(init), personasOf, store, chain);
      if exists i :: 0 <= i < |init| && init[i].id != NullId && SaveChain(trace) in ChainFor(all, init[i], personasOf, Some(store), chain) {
        var i :| 0 <= i < |init| && init[i].id != NullId && SaveChain(trace) in ChainFor(all, init[i], personasOf, Some(store), chain);
        assert cs[i] == init[i];
      }
      if exists i :: 0 <= i < |cs| && cs[i].id != NullId && SaveChain(trace) in ChainFor(all, cs[i], personasOf, Some(store), chain) {
        var i :| 0 <= i < |cs| && cs[i].id != NullId && SaveChain(trace) in ChainFor(all, cs[i], personasOf, Some(store), chain);
        if i < |init| {
          assert init[i] == cs[i];
        }
      }
    }
  }

  /**
   * The closures of a save are all new: one at `next + k` for the k-th
   * null-id contact, holding that contact; every other closure is kept.
   */
  lemma {:induction false} AddClosuresMeaning(closures: map<nat, Closure>, cs: seq<Contact>, next: nat, request: nat, k: nat)
    ensures k in AddClosures(closures, cs, next, request) <==> k in closures || next <= k < next + NullIds(cs)
    ensures next <= k < next + NullIds(cs) ==>
      exists i :: 0 <= i < |cs| && cs[i].id == NullId && k == next + NullIds(cs[..i]) &&
                  AddClosures(closures, cs, next, request)[k] == AddClosure(request, cs[i])
    ensures !(next <= k < next + NullIds(cs)) && k in closures ==> AddClosures(closures, cs, next, request)[k] == closures[k]
    decreases |cs|
  {
    if cs != [] {
      var init := cs[..|cs| - 1];
      AddClosuresMeaning(closures, init, next, request, k);
      assert cs[..|cs| - 1] == init;
      if next <= k < next + NullIds(init) {
        var i :| 0 <= i < |init| && init[i].id == NullId && k == next + NullIds(init[..i]) &&
                 AddClosures(closures, init, next, request)[k] == AddClosure(request, init[i]);
        assert cs[i] == init[i] && cs[..i] == init[..i];
      }
    }
  }

  // ---------------------------------------------------------------- contactSaveChangesToFolks, as written

  /**
   * The table after `ContactPair pair = m_allContacts[contact.id()]` as
   * contactSaveChangesToFolks writes it: the non-const operator[] inserts a
   * default pair for an id the engine does not know.
   */
  function SaveLookupAsWritten(all: map<ContactId, ContactPair>, id: ContactId): map<ContactId, ContactPair>
  {
    all[id := Lookup(all, id)]
  }

  /**
   * Saving a contact the engine does not know leaves a phantom entry behind:
   * a default contact with a null id under the saved id, which later lookups
   * find, and the index is no longer linked.
   */
  lemma UnknownSaveLeavesPhantom(ix: Index, id: ContactId)
    requires id !in ix.allContacts
    ensures id in SaveLookupAsWritten(ix.allContacts, id)
    ensures SaveLookupAsWritten(ix.allContacts, id)[id] == ContactPair(EmptyContact, None)
    ensures !Linked(Index(SaveLookupAsWritten(ix.allContacts, id), ix.individualsToIds))
  {
    var after := SaveLookupAsWritten(ix.allContacts, id);
    assert after[id].individual.None?;
  }

  // ---------------------------------------------------------------- the engine

  /** addIndividual's construction of a contact, as a value: Projector.Materialized. */
  type Projection = f: (string, uint32, Individual) -> Contact |
    forall uri, hash, individual {:trigger Projector.Materialized(uri, hash, individual)} ::
      f(uri, hash, individual) == Projector.Materialized(uri, hash, individual)
    witness Projector.Materialized

  /** The field-notify callbacks' routines, as a value: Projector.Update. */
  type Routine = f: (Projector.Property, Contact, Individual) -> Contact |
    forall p, c, individual {:trigger Projector.Update(p, c, individual)} :: f(p, c, individual) == Projector.Update(p, c, individual)
    witness Projector.Update

  /** The save chain's trace, as a value: WriteBack.ChainTrace. */
  type Chain = f: WriteBack.SaveData -> seq<WriteBack.Event> |
    forall data {:trigger WriteBack.ChainTrace(data)} :: f(data) == WriteBack.ChainTrace(data)
    witness WriteBack.ChainTrace

  class ManagerEngine {
    var allContacts: map<ContactId, ContactPair>
    var individualsToIds: map<nat, ContactId>
    var initialIndividualsAdded: bool
    var signals: seq<Notification>
    var calls: seq<Effect>
    /** The closures allocated and not yet freed, by address. */
    var closures: map<nat, Closure>
    var nextClosure: nat
    const refs: References
    const managerUri: string
    const qHash: string -> uint32
    /** How addIndividual builds a contact. */
    const project: Projection
    /** How the field-notify callbacks rebuild a contact. */
    const update: Routine
    /** How contactSaveChangesToFolks's chain runs. */
    const chain: Chain

    /** Each stored pair owns one reference on its individual, and closure addresses are fresh. */
    ghost predicate Valid()
      reads this, refs
    {
      Balanced(refs.counts, allContacts) &&
      (forall k :: k in closures ==> k < nextClosure)
    }

    /** An engine before the aggregator reported any individual. */
    constructor (managerUri: string, qHash: string -> uint32)
      ensures Valid() && fresh(refs)
      ensures this.managerUri == managerUri && this.qHash == qHash && project == Projector.Materialized
      ensures update == Projector.Update && chain == WriteBack.ChainTrace
      ensures allContacts == map[] && individualsToIds == map[] && !initialIndividualsAdded
      ensures signals == [] && calls == [] && closures == map[] && nextClosure == 0
    {
      this.managerUri := managerUri;
      this.qHash := qHash;
      project := Projector.Materialized;
      update := Projector.Update;
      chain := WriteBack.ChainTrace;
      refs := new References();
      allContacts := map[];
      individualsToIds := map[];
      initialIndividualsAdded := false;
      signals := [];
      calls := [];
      closures := map[];
      nextClosure := 0;
      new;
      forall h: nat ensures Count(refs.counts, h) == Holders(allContacts, h) {
        assert HolderIds(allContacts, h) == {};
      }
    }

    /**
     * `m_allContacts.insert(id, ContactPair(contact, individual))`: the
     * temporary pair references the individual, the stored copy (or the
     * assigned-over pair) takes its own reference, and the temporary's
     * destructor gives the first one back.
     */
    method InsertPair(id: ContactId, contact: Contact, h: nat)
      requires Valid()
      modifies this, refs
      ensures Valid()
      ensures allContacts == old(allContacts)[id := ContactPair(contact, Some(h))]
      ensures individualsToIds == old(individualsToIds) && calls == old(calls) && signals == old(signals)
      ensures closures == old(closures) && nextClosure == old(nextClosure)
      ensures initialIndividualsAdded == old(initialIndividualsAdded)
    {
      ghost var before := allContacts;
      var pair := refs.NewPair(contact, Some(h));
      var stored;
      if id in allContacts {
        stored := refs.AssignPair(allContacts[id], pair);
      } else {
        stored := refs.CopyPair(pair);
      }
      allContacts := allContacts[id := stored];
      refs.DestroyPair(pair);
      forall g: nat ensures Count(refs.counts, g) == Holders(allContacts, g) {
        HoldersAfterStore(before, id, stored, g);
      }
    }

    /** The update routines of addIndividual run on a new contact, and the avatar whose caching they start. */
    method Project(individual: Individual) returns (contact: Contact, pending: Option<string>)
      ensures contact == project(managerUri, qHash(individual.id), individual)
      ensures contact.id == IdFor(managerUri, qHash(individual.id))
      ensures pending == Projector.AvatarPending(individual)
    {
      var hash := qHash(individual.id);
      contact, pending := Projector.Materialize(managerUri, hash, individual);
      Projector.MaterializedId(managerUri, hash, individual);
    }

    /** addIndividual */
    method AddIndividual(individual: Individual) returns (id: ContactId)
      requires Valid()
      modifies this, refs
      ensures Valid()
      ensures id == AddedId(managerUri, qHash, individual)
      ensures Index(allContacts, individualsToIds) ==
        AddedTo(Index(old(allContacts), old(individualsToIds)), managerUri, qHash, project, individual)
      ensures calls == old(calls) + AvatarRequest(managerUri, qHash, individual)
      ensures signals == old(signals) && closures == old(closures) && nextClosure == old(nextClosure)
      ensures initialIndividualsAdded == old(initialIndividualsAdded)
    {
      if individual.isUser {
        return NullId;
      }
      var contact, pending := Project(individual);
      if pending.Some? {
        calls := calls + [StoreAvatar(contact.id, pending.value)];
      }
      InsertPair(contact.id, contact, individual.handle);
      individualsToIds := individualsToIds[individual.handle := contact.id];
      id := contact.id;
    }

    /** removeIndividual */
    method RemoveIndividual(h: nat) returns (id: ContactId)
      requires Valid()
      modifies this, refs
      ensures Valid()
      ensures id == RemovedId(Index(old(allContacts), old(individualsToIds)), h)
      ensures Index(allContacts, individualsToIds) == Removed(Index(old(allContacts), old(individualsToIds)), h)
      ensures calls == old(calls) && signals == old(signals) && closures == old(closures) && nextClosure == old(nextClosure)
      ensures initialIndividualsAdded == old(initialIndividualsAdded)
    {
      id := NullId;
      if h in individualsToIds {
        id := individualsToIds[h];
        individualsToIds := individualsToIds - {h};
        ghost var before := allContacts;
        if id in allContacts {
          refs.DestroyPair(allContacts[id]);
        }
        allContacts := allContacts - {id};
        forall g: nat ensures Count(refs.counts, g) == Holders(allContacts, g) {
          HoldersAfterRemove(before, id, g);
        }
      }
    }

    /** The removal loop of individualsChangedCb: the non-null ids, in order. */
    method RemoveEach(removed: seq<nat>) returns (removedIds: seq<ContactId>)
      requires Valid()
      modifies this, refs
      ensures Valid()
      ensures Index(allContacts, individualsToIds) == RemovedAll(Index(old(allContacts), old(individualsToIds)), removed)
      ensures removedIds == RemovedIds(Index(old(allContacts), old(individualsToIds)), removed)
      ensures calls == old(calls) && signals == old(signals)
      ensures closures == old(closures) && nextClosure == old(nextClosure)
      ensures initialIndividualsAdded == old(initialIndividualsAdded)
    {
      ghost var start := Index(allContacts, individualsToIds);
      removedIds := [];
      var i := 0;
      while i < |removed|
        invariant 0 <= i <= |removed| && Valid()
        invariant Index(allContacts, individualsToIds) == RemovedAll(start, removed[..i])
        invariant removedIds == RemovedIds(start, removed[..i])
        invariant calls == old(calls) && signals == old(signals)
        invariant closures == old(closures) && nextClosure == old(nextClosure)
        invariant initialIndividualsAdded == old(initialIndividualsAdded)
      {
        assert removed[..i + 1][..i] == removed[..i];
        var id := RemoveIndividual(removed[i]);
        if id != NullId {
          removedIds := removedIds + [id];
        }
        i := i + 1;
      }
      assert removed[..i] == removed;
    }

    /** The addition loop of individualsChangedCb: the non-null ids, in order. */
    method AddEach(added: seq<Individual>) returns (addedIds: seq<ContactId>)
      requires Valid()
      modifies this, refs
      ensures Valid()
      ensures Index(allContacts, individualsToIds) == AddedAll(Index(old(allContacts), old(individualsToIds)), managerUri, qHash, project, added)
      ensures addedIds == AddedIds(managerUri, qHash, added)
      ensures calls == old(calls) + AvatarRequests(managerUri, qHash, added)
      ensures signals == old(signals)
      ensures closures == old(closures) && nextClosure == old(nextClosure)
      ensures initialIndividualsAdded == old(initialIndividualsAdded)
    {
      ghost var start := Index(allContacts, individualsToIds);
      addedIds := [];
      var j := 0;
      while j < |added|
        invariant 0 <= j <= |added| && Valid()
        invariant Index(allContacts, individualsToIds) == AddedAll(start, managerUri, qHash, project, added[..j])
        invariant addedIds == AddedIds(managerUri, qHash, added[..j])
        invariant calls == old(calls) + AvatarRequests(managerUri, qHash, added[..j])
        invariant signals == old(signals)
        invariant closures == old(closures) && nextClosure == old(nextClosure)
        invariant initialIndividualsAdded == old(initialIndividualsAdded)
      {
        AddedStep(start, managerUri, qHash, project, added, j);
        var id := AddIndividual(added[j]);
        if id != NullId {
          addedIds := addedIds + [id];
        }
        j := j + 1;
      }
      assert added[..j] == added;
    }

    /** individualsChangedCb: every removal, then every addition, then the batched signals. */
    method IndividualsChanged(added: seq<Individual>, removed: seq<nat>)
      requires Valid()
      modifies this, refs
      ensures Valid()
      ensures Index(allContacts, individualsToIds) ==
        AddedAll(RemovedAll(Index(old(allContacts), old(individualsToIds)), removed), managerUri, qHash, project, added)
      ensures signals == old(signals) + BatchSignals(RemovedIds(Index(old(allContacts), old(individualsToIds)), removed), AddedIds(managerUri, qHash, added))
      ensures calls == old(calls) + AvatarRequests(managerUri, qHash, added)
      ensures initialIndividualsAdded
      ensures closures == old(closures) && nextClosure == old(nextClosure)
    {
      var removedIds := RemoveEach(removed);
      var addedIds := AddEach(added);
      signals := signals + BatchSignals(removedIds, addedIds);
      initialIndividualsAdded := true;
    }

    /**
     * The field-notify callbacks (one per property): an unknown individual
     * is ignored; otherwise its stored contact is updated in place and one
     * change of that id is signalled.
     */
    method Notify(p: Projector.Property, individual: Individual)
      requires Valid()
      modifies this
      ensures Valid()
      ensures Index(allContacts, individualsToIds) == Notified(Index(old(allContacts), old(individualsToIds)), update, p, individual)
      ensures signals == old(signals) +
        (if individual.handle in old(individualsToIds) then [ContactsChanged([old(individualsToIds)[individual.handle]])] else [])
      ensures calls == old(calls) +
        (if individual.handle in old(individualsToIds)
         then AvatarStore(Lookup(old(allContacts), old(individualsToIds)[individual.handle]).contact.id, p, individual)
         else [])
      ensures closures == old(closures) && nextClosure == old(nextClosure)
      ensures initialIndividualsAdded == old(initialIndividualsAdded)
    {
      if individual.handle !in individualsToIds {
        return;
      }
      var id := individualsToIds[individual.handle];
      var pair := if id in allContacts then allContacts[id] else DefaultPair;
      var c, pending := Refresh(p, pair.contact, individual);
      StorePair(id, pair.(contact := c));
      calls := calls + (if pending.Some? then [StoreAvatar(pair.contact.id, pending.value)] else []);
      signals := signals + [ContactsChanged([id])];
    }

    /** The routine for `p` run on a stored contact, and the avatar whose caching it starts. */
    method Refresh(p: Projector.Property, contact: Contact, individual: Individual) returns (c: Contact, pending: Option<string>)
      ensures c == update(p, contact, individual)
      ensures c.id == contact.id
      ensures pending == if p == Projector.AvatarChanged then Projector.AvatarPending(individual) else None
    {
      c, pending := Projector.ApplyUpdate(p, contact, individual);
      Projector.UpdateKeepsIds(p, contact, individual);
    }

    /** `m_allContacts[id] = pair` for a pair holding the individual the stored one holds. */
    method StorePair(id: ContactId, pair: ContactPair)
      requires Valid() && pair.individual == Lookup(allContacts, id).individual
      modifies this
      ensures Valid()
      ensures allContacts == old(allContacts)[id := pair]
      ensures individualsToIds == old(individualsToIds) && calls == old(calls) && signals == old(signals)
      ensures closures == old(closures) && nextClosure == old(nextClosure)
      ensures initialIndividualsAdded == old(initialIndividualsAdded)
    {
      ghost var before := allContacts;
      allContacts := allContacts[id := pair];
      forall g: nat ensures Count(refs.counts, g) == Holders(allContacts, g) {
        HoldersAfterStore(before, id, pair, g);
      }
    }

    /**
     * personasChangedCb: nothing when both sets are NULL or the individual is
     * unknown; otherwise the individual's pair is looked up (updatePersonas
     * changes nothing) and one change of its id is signalled.
     */
    method PersonasChanged(h: nat, addedGiven: bool, removedGiven: bool)
      requires Valid()
      modifies this
      ensures Valid()
      ensures var touched := (addedGiven || removedGiven) && h in old(individualsToIds);
        && individualsToIds == old(individualsToIds)
        && allContacts == (if touched then old(allContacts)[old(individualsToIds)[h] := Lookup(old(allContacts), old(individualsToIds)[h])]
                           else old(allContacts))
        && signals == old(signals) + (if touched then [ContactsChanged([old(individualsToIds)[h]])] else [])
      ensures calls == old(calls) && closures == old(closures) && nextClosure == old(nextClosure)
      ensures initialIndividualsAdded == old(initialIndividualsAdded)
    {
      if !addedGiven && !removedGiven {
        return;
      }
      if h !in individualsToIds {
        return;
      }
      var id := individualsToIds[h];
      var pair := if id in allContacts then allContacts[id] else DefaultPair;
      StorePair(id, pair);
      signals := signals + [ContactsChanged([id])];
    }

    /** contact(): the stored contact and NoError, or a default-constructed contact with the error left unwritten. */
    method Contact(id: ContactId) returns (c: Contact, error: Option<CreatePath.ManagerError>)
      ensures id in allContacts ==> c == allContacts[id].contact && error == Some(CreatePath.NoError)
      ensures id !in allContacts ==> c == EmptyContact && error.None?
      ensures Linked(Index(allContacts, individualsToIds)) && id in allContacts ==> c.id == id
    {
      c := EmptyContact;
      error := None;
      if id in allContacts {
        c := allContacts[id].contact;
        error := Some(CreatePath.NoError);
      }
    }

    /**
     * contacts(): every stored contact that passes the filter, each added
     * with addSorted. The map's iteration order is not modelled: `order` is
     * the order in which the pairs were visited.
     */
    method Contacts(filter: Contact -> bool, before: (Contact, Contact) -> bool)
      returns (cnts: seq<Contact>, ghost order: seq<ContactId>)
      ensures forall id :: id in order <==> id in allContacts
      ensures |order| == |allContacts|
      ensures multiset(cnts) == multiset(Passing(allContacts, order, filter))
    {
      cnts := [];
      order := [];
      var remaining := allContacts.Keys;
      while remaining != {}
        invariant remaining <= allContacts.Keys
        invariant forall id :: id in order <==> id in allContacts && id !in remaining
        invariant |order| + |remaining| == |allContacts.Keys|
        invariant multiset(cnts) == multiset(Passing(allContacts, order, filter))
        decreases remaining
      {
        var id :| id in remaining;
        assert (order + [id])[..|order|] == order;
        if filter(allContacts[id].contact) {
          cnts := AddSorted(cnts, allContacts[id].contact, before);
        }
        order := order + [id];
        remaining := remaining - {id};
      }
      assert |allContacts.Keys| == |allContacts|;
    }

    /** contactIds(): the ids of what contacts() lists, in its order; contacts() never reports an error. */
    method ContactIds(filter: Contact -> bool, before: (Contact, Contact) -> bool)
      returns (ids: seq<ContactId>, ghost cnts: seq<Contact>, ghost order: seq<ContactId>)
      ensures forall id :: id in order <==> id in allContacts
      ensures multiset(cnts) == multiset(Passing(allContacts, order, filter))
      ensures |ids| == |cnts| && forall i :: 0 <= i < |ids| ==> ids[i] == cnts[i].id
    {
      var listed;
      listed, order := Contacts(filter, before);
      cnts := listed;
      ids := [];
      var i := 0;
      while i < |listed|
        invariant 0 <= i <= |listed|
        invariant |ids| == i && forall j :: 0 <= j < i ==> ids[j] == listed[j].id
      {
        ids := ids + [listed[i].id];
        i := i + 1;
      }
    }

    /** A closure allocated with `new`: a fresh address. */
    method NewClosure(closure: Closure) returns (k: nat)
      requires Valid()
      modifies this
      ensures Valid()
      ensures k == old(nextClosure) && nextClosure == old(nextClosure) + 1
      ensures closures == old(closures)[k := closure]
      ensures allContacts == old(allContacts) && individualsToIds == old(individualsToIds)
      ensures calls == old(calls) && signals == old(signals) && initialIndividualsAdded == old(initialIndividualsAdded)
    {
      k := nextClosure;
      closures := closures[k := closure];
      nextClosure := nextClosure + 1;
    }

    /**
     * contactSaveChangesToFolks, with the lookup that does not insert: false
     * for a contact without a stored individual; otherwise the save chain
     * runs against the primary persona and the stored contact.
     */
    method SaveChangesToFolks(contact: Contact, personasOf: nat -> seq<Persona>, primaryStore: Option<nat>)
      returns (saved: bool)
      modifies this
      ensures saved <==> contact.id in allContacts && allContacts[contact.id].individual.Some?
      ensures calls == old(calls) + ChainFor(allContacts, contact, personasOf, primaryStore, chain)
      ensures allContacts == old(allContacts) && individualsToIds == old(individualsToIds)
      ensures signals == old(signals) && closures == old(closures) && nextClosure == old(nextClosure)
      ensures initialIndividualsAdded == old(initialIndividualsAdded)
    {
      var pair := if contact.id in allContacts then allContacts[contact.id] else DefaultPair;
      if pair.individual.None? {
        return false;
      }
      var persona := GetPrimaryPersona(pair.individual, personasOf, primaryStore);
      var trace := WriteBack.RunChain(WriteBack.SaveData(persona, contact, pair.contact, primaryStore));
      calls := calls + [SaveChain(trace)];
      saved := true;
    }

    /** One contact of the save branch: a closure and a create call for a null id, the save chain otherwise. */
    method SaveOne(request: nat, contact: Contact, personasOf: nat -> seq<Persona>, store: nat)
      requires Valid()
      modifies this
      ensures Valid()
      ensures calls == old(calls) + SaveCall(allContacts, contact, old(nextClosure), personasOf, store, chain)
      ensures closures == if contact.id == NullId then old(closures)[old(nextClosure) := AddClosure(request, contact)] else old(closures)
      ensures nextClosure == old(nextClosure) + (if contact.id == NullId then 1 else 0)
      ensures allContacts == old(allContacts) && individualsToIds == old(individualsToIds)
      ensures signals == old(signals) && initialIndividualsAdded == old(initialIndividualsAdded)
    {
      if contact.id == NullId {
        var closure := NewClosure(AddClosure(request, contact));
        var details := CreatePath.PersonaDetailsHashFromContact(contact);
        calls := calls + [AddPersonaFromDetails(store, details, closure)];
      } else {
        var _ := SaveChangesToFolks(contact, personasOf, Some(store));
      }
    }

    /** The save branch of startRequest, given a primary store. */
    method StartSave(request: nat, contacts: seq<Contact>, personasOf: nat -> seq<Persona>, store: nat)
      requires Valid()
      modifies this
      ensures Valid()
      ensures calls == old(calls) + SaveCalls(allContacts, contacts, old(nextClosure), personasOf, store, chain)
      ensures closures == AddClosures(old(closures), contacts, old(nextClosure), request)
      ensures nextClosure == old(nextClosure) + NullIds(contacts)
      ensures allContacts == old(allContacts) && individualsToIds == old(individualsToIds)
      ensures signals == old(signals) && initialIndividualsAdded == old(initialIndividualsAdded)
    {
      ghost var next := nextClosure;
      var i := 0;
      while i < |contacts|
        invariant 0 <= i <= |contacts| && Valid()
        invariant calls == old(calls) + SaveCalls(allContacts, contacts[..i], next, personasOf, store, chain)
        invariant closures == AddClosures(old(closures), contacts[..i], next, request)
        invariant nextClosure == next + NullIds(contacts[..i])
        invariant allContacts == old(allContacts) && individualsToIds == old(individualsToIds)
        invariant signals == old(signals) && initialIndividualsAdded == old(initialIndividualsAdded)
      {
        assert contacts[..i + 1][..i] == contacts[..i];
        SaveOne(request, contacts[i], personasOf, store);
        i := i + 1;
      }
      assert contacts[..i] == contacts;
    }

    /** The remove branch of startRequest: a closure for every id, a call for every known one. */
    method StartRemove(request: nat, ids: seq<ContactId>)
      requires Valid()
      modifies this
      ensures Valid()
      ensures calls == old(calls) + RemoveCalls(allContacts, ids, old(nextClosure))
      ensures closures == RemoveClosures(old(closures), old(nextClosure), |ids|, request)
      ensures nextClosure == old(nextClosure) + |ids|
      ensures allContacts == old(allContacts) && individualsToIds == old(individualsToIds)
      ensures signals == old(signals) && initialIndividualsAdded == old(initialIndividualsAdded)
    {
      ghost var next := nextClosure;
      var i := 0;
      while i < |ids|
        invariant 0 <= i <= |ids| && Valid()
        invariant calls == old(calls) + RemoveCalls(allContacts, ids[..i], next)
        invariant closures == RemoveClosures(old(closures), next, i, request)
        invariant nextClosure == next + i
        invariant allContacts == old(allContacts) && individualsToIds == old(individualsToIds)
        invariant signals == old(signals) && initialIndividualsAdded == old(initialIndividualsAdded)
      {
        assert ids[..i + 1][..i] == ids[..i];
        var closure := NewClosure(RemoveClosure(request));
        if ids[i] in allContacts {
          calls := calls + [RemoveIndividualCall(allContacts[ids[i]].individual, closure)];
        }
        i := i + 1;
      }
      assert ids[..i] == ids;
    }

    /** The fetch branch of startRequest: finished with the contacts when there are any, else just finished. */
    method StartFetch(request: nat, filter: Contact -> bool, sortBefore: (Contact, Contact) -> bool)
      returns (ghost fetched: seq<Contact>, ghost order: seq<ContactId>)
      modifies this
      ensures forall id :: id in order <==> id in allContacts
      ensures multiset(fetched) == multiset(Passing(allContacts, order, filter))
      ensures calls == old(calls) +
        [if fetched != [] then FetchFinished(request, fetched, CreatePath.NoError) else StateChanged(request, CreatePath.FinishedState)]
      ensures allContacts == old(allContacts) && individualsToIds == old(individualsToIds)
      ensures signals == old(signals) && closures == old(closures) && nextClosure == old(nextClosure)
      ensures initialIndividualsAdded == old(initialIndividualsAdded)
    {
      var listed;
      listed, order := Contacts(filter, sortBefore);
      fetched := listed;
      if listed != [] {
        calls := calls + [FetchFinished(request, listed, CreatePath.NoError)];
      } else {
        calls := calls + [StateChanged(request, CreatePath.FinishedState)];
      }
    }

    /**
     * startRequest: false for a NULL request; otherwise the request becomes
     * active and is dispatched by type, and an unknown type is canceled and
     * refused.
     */
    method StartRequest(request: Option<Request>, personasOf: nat -> seq<Persona>, primaryStore: Option<nat>)
      returns (started: bool, ghost fetched: seq<Contact>, ghost order: seq<ContactId>)
      requires Valid()
      modifies this
      ensures Valid()
      ensures started <==> request.Some? && !request.value.OtherRequest?
      ensures request.None? ==> calls == old(calls) && closures == old(closures) && nextClosure == old(nextClosure)
      ensures request.Some? ==> var r := request.value;
        var active := old(calls) + [StateChanged(r.handle, CreatePath.ActiveState)];
        && (r.OtherRequest? ==>
              calls == active + [StateChanged(r.handle, CreatePath.CanceledState)] &&
              closures == old(closures) && nextClosure == old(nextClosure))
        && (r.SaveRequest? && primaryStore.None? ==>
              calls == active && closures == old(closures) && nextClosure == old(nextClosure))
        && (r.SaveRequest? && primaryStore.Some? ==>
              calls == active + SaveCalls(allContacts, r.contacts, old(nextClosure), personasOf, primaryStore.value, chain) &&
              closures == AddClosures(old(closures), r.contacts, old(nextClosure), r.handle) &&
              nextClosure == old(nextClosure) + NullIds(r.contacts))
        && (r.RemoveRequest? ==>
              calls == active + RemoveCalls(allContacts, r.contactIds, old(nextClosure)) &&
              closures == RemoveClosures(old(closures), old(nextClosure), |r.contactIds|, r.handle) &&
              nextClosure == old(nextClosure) + |r.contactIds|)
        && (r.FetchRequest? ==>
              (forall id :: id in order <==> id in allContacts) &&
              multiset(fetched) == multiset(Passing(allContacts, order, r.filter)) &&
              calls == active +
                [if fetched != [] then FetchFinished(r.handle, fetched, CreatePath.NoError)
                 else StateChanged(r.handle, CreatePath.FinishedState)] &&
              closures == old(closures) && nextClosure == old(nextClosure))
      ensures allContacts == old(allContacts) && individualsToIds == old(individualsToIds)
      ensures signals == old(signals) && initialIndividualsAdded == old(initialIndividualsAdded)
    {
      fetched, order := [], [];
      if request.None? {
        return false, fetched, order;
      }
      var r := request.value;
      calls := calls + [StateChanged(r.handle, CreatePath.ActiveState)];
      started := true;
      match r {
        case SaveRequest(handle, contacts) =>
          if |contacts| >= 1 && primaryStore.Some? {
            StartSave(handle, contacts, personasOf, primaryStore.value);
          }
        case RemoveRequest(handle, ids) =>
          if |ids| >= 1 {
            StartRemove(handle, ids);
          }
        case FetchRequest(handle, filter, sortBefore) =>
          fetched, order := StartFetch(handle, filter, sortBefore);
        case OtherRequest(handle) =>
          calls := calls + [StateChanged(handle, CreatePath.CanceledState)];
          started := false;
      }
    }

    /** The add-persona trampoline: the completion handler runs once, then the closure is freed. */
    method AddPersonaFromDetailsDone(closure: nat, outcome: CreatePath.AddOutcome)
      requires Valid() && closure in closures && closures[closure].AddClosure?
      modifies this
      ensures Valid()
      ensures closures == old(closures) - {closure}
      ensures calls == old(calls) + [SaveFinished(old(closures)[closure].request,
        CreatePath.AddPersonaFinished(managerUri, qHash, outcome, old(closures)[closure].contact))]
      ensures allContacts == old(allContacts) && individualsToIds == old(individualsToIds) && nextClosure == old(nextClosure)
      ensures signals == old(signals) && initialIndividualsAdded == old(initialIndividualsAdded)
    {
      var data := closures[closure];
      calls := calls + [SaveFinished(data.request, CreatePath.AddPersonaFinished(managerUri, qHash, outcome, data.contact))];
      closures := closures - {closure};
    }

    /** The remove-individual trampoline: the completion handler runs once, then the closure is freed. */
    method RemoveIndividualDone(closure: nat, error: Option<CreatePath.AggregatorError>)
      requires Valid() && closure in closures && closures[closure].RemoveClosure?
      modifies this
      ensures Valid()
      ensures closures == old(closures) - {closure}
      ensures calls == old(calls) + [RemoveFinished(old(closures)[closure].request, CreatePath.RemoveIndividualFinished(error))]
      ensures allContacts == old(allContacts) && individualsToIds == old(individualsToIds) && nextClosure == old(nextClosure)
      ensures signals == old(signals) && initialIndividualsAdded == old(initialIndividualsAdded)
    {
      var data := closures[closure];
      calls := calls + [RemoveFinished(data.request, CreatePath.RemoveIndividualFinished(error))];
      closures := closures - {closure};
    }
  }
}
