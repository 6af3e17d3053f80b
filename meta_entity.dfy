/**
 * The per-container entity link ("meta entity"): its identity, its optional
 * side state (decorations) and the two masks, its distribution role and
 * residence, and the operations that walk the chain of links of one entity.
 *
 * Collaborators that are not part of this model (the entity registry, the
 * transaction mutator, storage, the entity types, the lifecycle state
 * machines) are either plain fields the methods consult or a log of the calls
 * the core makes on them (`Runtime.log`).
 */
module MetaEntities {
  import opened Outcomes
  import opened Masks
  import opened Identity
  import opened Events
  import Codec

  // ---------------------------------------------------------------------
  // Decorations
  // ---------------------------------------------------------------------

  /** Optional per-link state, kept in the link's decoration chain. */
  datatype Decoration =
    | PoolDecoration(pool: nat)
    | VersionDecoration(version: nat)
    | SerialIdDecoration(serial: nat)
    | EventChannelAttachment(channel: EventChannel?)

  datatype DecorationKind = PoolKind | VersionKind | SerialIdKind | ChannelKind

  function KindOfDecoration(d: Decoration): DecorationKind {
    match d
    case PoolDecoration(_) => PoolKind
    case VersionDecoration(_) => VersionKind
    case SerialIdDecoration(_) => SerialIdKind
    case EventChannelAttachment(_) => ChannelKind
  }

  /** Index of the first decoration of kind `k` (`findFirstDecoration`'s walk). */
  function FirstOfKind(ds: seq<Decoration>, k: DecorationKind): (r: Option<nat>)
    ensures r.Some? ==> r.value < |ds| && KindOfDecoration(ds[r.value]) == k
    ensures r.Some? ==> forall j :: 0 <= j < r.value ==> KindOfDecoration(ds[j]) != k
    ensures r.None? ==> forall j :: 0 <= j < |ds| ==> KindOfDecoration(ds[j]) != k
  {
    if ds == [] then None
    else if KindOfDecoration(ds[0]) == k then Some(0)
    else match FirstOfKind(ds[1..], k)
      case None => None
      case Some(i) => Some(i + 1)
  }

  /** The first decoration of kind `k`, or null. */
  function FindFirst(ds: seq<Decoration>, k: DecorationKind): Option<Decoration> {
    match FirstOfKind(ds, k)
    case None => None
    case Some(i) => Some(ds[i])
  }

  /** Index of the first decoration equal to `d` (the one `removeDecoration(d)` unlinks). */
  function IndexOf(ds: seq<Decoration>, d: Decoration): (r: Option<nat>)
    ensures r.Some? ==> r.value < |ds| && ds[r.value] == d
    ensures r.Some? ==> forall j :: 0 <= j < r.value ==> ds[j] != d
    ensures r.None? ==> d !in ds
  {
    if ds == [] then None
    else if ds[0] == d then Some(0)
    else match IndexOf(ds[1..], d)
      case None => None
      case Some(i) => Some(i + 1)
  }

  function RemoveAt(ds: seq<Decoration>, i: nat): (r: seq<Decoration>)
    requires i < |ds|
    ensures |r| == |ds| - 1
  {
    ds[..i] + ds[i + 1..]
  }

  /** The chain after `removeDecoration(d)`; removing null removes nothing. */
  function Removed(ds: seq<Decoration>, d: Option<Decoration>): seq<Decoration> {
    if d.None? then ds
    else match IndexOf(ds, d.value)
      case None => ds
      case Some(i) => RemoveAt(ds, i)
  }

  /** The first decoration of a kind is the first one equal to it. */
  lemma FirstOfKindIsIndexOf(ds: seq<Decoration>, k: DecorationKind)
    requires FirstOfKind(ds, k).Some?
    ensures IndexOf(ds, ds[FirstOfKind(ds, k).value]) == FirstOfKind(ds, k)
  {
    var i := FirstOfKind(ds, k).value;
    var j := IndexOf(ds, ds[i]);
    assert j.Some?;
    assert KindOfDecoration(ds[j.value]) == k;
  }

  /** Replacing the first decoration of a kind by another of that kind keeps it first. */
  lemma FirstOfKindAfterUpdate(ds: seq<Decoration>, k: DecorationKind, i: nat, d: Decoration)
    requires FirstOfKind(ds, k) == Some(i) && KindOfDecoration(d) == k
    ensures FirstOfKind(ds[i := d], k) == Some(i)
  {
    var us := ds[i := d];
    assert KindOfDecoration(us[i]) == k;
    assert forall j :: 0 <= j < i ==> us[j] == ds[j];
  }

  /** The decorations other than event-channel bindings, in chain order. */
  function NonChannel(ds: seq<Decoration>): seq<Decoration> {
    if ds == [] then []
    else (if ds[0].EventChannelAttachment? then [] else [ds[0]]) + NonChannel(ds[1..])
  }

  lemma {:induction false} NonChannelAppend(a: seq<Decoration>, b: seq<Decoration>)
    ensures NonChannel(a + b) == NonChannel(a) + NonChannel(b)
  {
    if a == [] {
      assert a + b == b;
    } else {
      assert (a + b)[0] == a[0];
      assert (a + b)[1..] == a[1..] + b;
      NonChannelAppend(a[1..], b);
    }
  }

  /** Replacing, removing or adding a channel binding keeps every other decoration. */
  lemma NonChannelIgnoresBindings(ds: seq<Decoration>, i: nat, c: EventChannel?)
    requires i < |ds| && ds[i].EventChannelAttachment?
    ensures NonChannel(ds[i := EventChannelAttachment(c)]) == NonChannel(ds)
    ensures NonChannel(RemoveAt(ds, i)) == NonChannel(ds)
    ensures NonChannel([EventChannelAttachment(c)] + ds) == NonChannel(ds)
  {
    assert ds == ds[..i] + [ds[i]] + ds[i + 1..];
    assert ds[i := EventChannelAttachment(c)] == ds[..i] + [EventChannelAttachment(c)] + ds[i + 1..];
    NonChannelAppend(ds[..i] + [ds[i]], ds[i + 1..]);
    NonChannelAppend(ds[..i], [ds[i]]);
    NonChannelAppend(ds[..i] + [EventChannelAttachment(c)], ds[i + 1..]);
    NonChannelAppend(ds[..i], [EventChannelAttachment(c)]);
    NonChannelAppend(ds[..i], ds[i + 1..]);
    NonChannelAppend([EventChannelAttachment(c)], ds);
  }

  /** With a single channel binding, removing it leaves none. */
  lemma RemovingOnlyBinding(ds: seq<Decoration>, i: nat)
    requires i < |ds| && ds[i].EventChannelAttachment?
    requires forall j :: 0 <= j < |ds| && j != i ==> !ds[j].EventChannelAttachment?
    ensures FirstOfKind(RemoveAt(ds, i), ChannelKind).None?
  {
    var r := RemoveAt(ds, i);
    forall j | 0 <= j < |r| ensures KindOfDecoration(r[j]) != ChannelKind {
      if j < i { assert r[j] == ds[j]; } else { assert r[j] == ds[j + 1]; }
    }
  }

  /** Replacing a decoration of another kind by another of another kind keeps whether kind `k` is present. */
  lemma {:induction false} KindKeptByUpdate(ds: seq<Decoration>, i: nat, d: Decoration, k: DecorationKind)
    requires i < |ds| && KindOfDecoration(ds[i]) != k && KindOfDecoration(d) != k
    ensures FirstOfKind(ds[i := d], k).Some? <==> FirstOfKind(ds, k).Some?
  {
    var us := ds[i := d];
    if FirstOfKind(ds, k).Some? {
      var j := FirstOfKind(ds, k).value;
      assert KindOfDecoration(us[j]) == k;
    }
    if FirstOfKind(us, k).Some? {
      var j := FirstOfKind(us, k).value;
      assert KindOfDecoration(ds[j]) == k;
    }
  }

  /** Removing a decoration of another kind keeps whether kind `k` is present. */
  lemma {:induction false} KindKeptByRemoval(ds: seq<Decoration>, i: nat, k: DecorationKind)
    requires i < |ds| && KindOfDecoration(ds[i]) != k
    ensures FirstOfKind(RemoveAt(ds, i), k).Some? <==> FirstOfKind(ds, k).Some?
  {
    var r := RemoveAt(ds, i);
    if FirstOfKind(ds, k).Some? {
      var j := FirstOfKind(ds, k).value;
      if j < i { assert r[j] == ds[j]; } else { assert r[j - 1] == ds[j]; }
    }
    if FirstOfKind(r, k).Some? {
      var j := FirstOfKind(r, k).value;
      if j < i { assert r[j] == ds[j]; } else { assert r[j] == ds[j + 1]; }
    }
  }

  /** Prepending a decoration of another kind keeps whether kind `k` is present. */
  lemma {:induction false} KindKeptByPrepend(ds: seq<Decoration>, d: Decoration, k: DecorationKind)
    requires KindOfDecoration(d) != k
    ensures FirstOfKind([d] + ds, k).Some? <==> FirstOfKind(ds, k).Some?
  {
    assert ([d] + ds)[1..] == ds;
  }

  // ---------------------------------------------------------------------
  // Entities, spaces and collaborators
  // ---------------------------------------------------------------------

  /** A domain object: its identity attributes, and whether it is a `Site`. */
  class Entity {
    var attributes: map<string, Key>
    const isSite: bool
    /** The attribute `primaryId()` reads. */
    const primaryIdAttribute: string

    constructor (isSite: bool, primaryIdAttribute: string)
      ensures this.isSite == isSite && this.primaryIdAttribute == primaryIdAttribute
      ensures attributes == map[]
    {
      this.isSite := isSite;
      this.primaryIdAttribute := primaryIdAttribute;
      attributes := map[];
    }

    /** `facet.put(entity, k)`: writes `k` to the facet's attribute (null clears it). */
    method Put(attribute: string, k: Option<Key>)
      modifies this`attributes
      ensures attributes == if k.Some? then old(attributes)[attribute := k.value]
                            else old(attributes) - {attribute}
    {
      attributes := if k.Some? then attributes[attribute := k.value] else attributes - {attribute};
    }
  }

  /** `facet.apply(entity)`: the value of the facet's attribute, null for a null entity. */
  function Apply(f: Facet, e: Entity?): Option<Key>
    reads e
  {
    if e != null && f.attribute in e.attributes then Some(e.attributes[f.attribute]) else None
  }

  /** `entity.primaryId()`. */
  function PrimaryId(e: Entity): Option<Key>
    reads e
  {
    if e.primaryIdAttribute in e.attributes then Some(e.attributes[e.primaryIdAttribute]) else None
  }

  /** A container. A space is itself an entity, with its own link. */
  class Space {
    const entity: Entity
    /** `space.meta()`: the space's own link. */
    const meta: MetaEntity
    const isStorage: bool
    const isStored: bool
    /** The space classes the space is an instance of. */
    const classes: set<string>

    constructor (entity: Entity, meta: MetaEntity, isStorage: bool, isStored: bool, classes: set<string>)
      ensures this.entity == entity && this.meta == meta && this.isStorage == isStorage
      ensures this.isStored == isStored && this.classes == classes
    {
      this.entity := entity;
      this.meta := meta;
      this.isStorage := isStorage;
      this.isStored := isStored;
      this.classes := classes;
    }
  }

  /** A call the core makes on a collaborator that is not part of this model. */
  datatype Effect =
    | RegistryAdded(link: MetaEntity)            // entityRegistry.add(link)
    | RegistryRemoved(link: MetaEntity)          // entityRegistry.remove(link)
    | InstanceUnregistered(link: MetaEntity)     // entityType.unregisterInstance(value)
    | IdSet(link: MetaEntity, id: Key)           // link.setId(identifier)
    | NewLinkTo(space: Space?, id: Key)          // newLinkTo(space, identifier)
    | SpacePut(target: Space, id: Key)           // space.put(newId, value)
    | EntityDeleted(link: MetaEntity)            // a deleted event, added while visiting `link`
    | ContentUpdated(link: MetaEntity)           // a content-updated event, scheduled atomically
    | MarkedPersistent(link: MetaEntity)         // markPersistent()
    | PrimaryPurgeRequested(link: MetaEntity)    // purgePrimary(), forwarded to the residence
    | ChannelDisconnected(channel: EventChannel) // channel.disconnect()
    | Delivered(channel: EventChannel, event: Event) // channel.accept(event)

  /** The collaborators: the log of calls made on them and the two id allocators. */
  class Runtime {
    var log: seq<Effect>
    /** The last `EntityRegistry.getUniqueInt()` handed out. */
    var lastShortcut: nat
    /** The serial number the next serial-id decoration receives. */
    var nextSerial: nat

    constructor ()
      ensures log == [] && lastShortcut == 0 && nextSerial == 0
    {
      log := [];
      lastShortcut := 0;
      nextSerial := 0;
    }

    method Record(e: Effect)
      modifies this`log
      ensures log == old(log) + [e]
    {
      log := log + [e];
    }

    /** `EntityRegistry.getUniqueInt()`: a shortcut never handed out before, never 0. */
    method UniqueInt() returns (s: int)
      modifies this`lastShortcut
      ensures s == old(lastShortcut) + 1 == lastShortcut
    {
      lastShortcut := lastShortcut + 1;
      s := lastShortcut;
    }

    /** The serial number of a new serial-id decoration. */
    method NewSerial() returns (s: nat)
      modifies this`nextSerial
      ensures s == old(nextSerial) && nextSerial == s + 1
    {
      s := nextSerial;
      nextSerial := nextSerial + 1;
    }
  }

  /** The encoder a reference is written to. */
  class Encoder {
    var tokens: seq<Codec.Token<Entity>>

    constructor ()
      ensures tokens == []
    {
      tokens := [];
    }
  }

  // ---------------------------------------------------------------------
  // Chains of links
  // ---------------------------------------------------------------------

  /** `chain` lists the links reached from `head` through `nextLink`, ending at null. */
  ghost predicate ChainFrom(head: MetaEntity, chain: seq<MetaEntity>)
    reads chain
  {
    && |chain| > 0 && chain[0] == head
    && (forall i :: 0 <= i < |chain| - 1 ==> chain[i].nextLink == chain[i + 1])
    && chain[|chain| - 1].nextLink == null
  }

  /** Index of the first link of `chain` whose `hasIdentity(name)` is Has or Pending. */
  function FirstIdentityHolder(chain: seq<MetaEntity>, hasIdentity: (MetaEntity, string) -> IdStatus,
                               name: string): (r: Option<nat>)
    ensures r.Some? ==> r.value < |chain| && hasIdentity(chain[r.value], name) != Hasnt
    ensures r.Some? ==> forall j :: 0 <= j < r.value ==> hasIdentity(chain[j], name) == Hasnt
    ensures r.None? ==> forall j :: 0 <= j < |chain| ==> hasIdentity(chain[j], name) == Hasnt
  {
    if chain == [] then None
    else if hasIdentity(chain[0], name) != Hasnt then Some(0)
    else match FirstIdentityHolder(chain[1..], hasIdentity, name)
      case None => None
      case Some(i) => Some(i + 1)
  }

  /** The deleted events of a deletion cascade over `chain`: one per link bound to a space. */
  ghost function DeletedEvents(chain: seq<MetaEntity>): seq<Effect>
    reads chain
  {
    if chain == [] then []
    else DeletedEvents(chain[..|chain| - 1])
         + (if chain[|chain| - 1].space != null then [EntityDeleted(chain[|chain| - 1])] else [])
  }

  /** The number of links of `chain` bound to a space. */
  ghost function SpacedCount(chain: seq<MetaEntity>): nat
    reads chain
  {
    if chain == [] then 0
    else SpacedCount(chain[..|chain| - 1]) + (if chain[|chain| - 1].space != null then 1 else 0)
  }

  /**
   * A cascade enqueues one deleted event per link that has a space, for that
   * link, and nothing else.
   */
  lemma {:induction false} DeletedEventsOnePerSpacedLink(chain: seq<MetaEntity>)
    ensures |DeletedEvents(chain)| == SpacedCount(chain)
    ensures forall k :: 0 <= k < |DeletedEvents(chain)| ==>
              DeletedEvents(chain)[k].EntityDeleted? && DeletedEvents(chain)[k].link in chain
              && DeletedEvents(chain)[k].link.space != null
    ensures forall i :: 0 <= i < |chain| && chain[i].space != null ==> EntityDeleted(chain[i]) in DeletedEvents(chain)
  {
    if chain != [] {
      var init := chain[..|chain| - 1];
      DeletedEventsOnePerSpacedLink(init);
      forall i | 0 <= i < |chain| && chain[i].space != null
        ensures EntityDeleted(chain[i]) in DeletedEvents(chain)
      {
        if i < |chain| - 1 {
          assert init[i] == chain[i];
        }
      }
      forall k | 0 <= k < |DeletedEvents(chain)|
        ensures DeletedEvents(chain)[k].EntityDeleted? && DeletedEvents(chain)[k].link in chain
                && DeletedEvents(chain)[k].link.space != null
      {
        if k < |DeletedEvents(init)| {
          assert DeletedEvents(chain)[k] == DeletedEvents(init)[k];
          assert DeletedEvents(init)[k].link in init;
        }
      }
    }
  }

  /** How `noteContentsChanged` ends or goes on at one link. */
  datatype ContentsStep =
    | AtEndOfChain      // nextLink is null
    | BeingWritten      // the re-entrancy guard
    | AtUniverse        // the next space is the entity itself
    | NullStorageCheck  // persistent, and the next link has no space: `space.isStorage()` on null
    | Schedule          // persistent, and the next space is storage
    | NoNextSpace       // not persistent, and the next link has no space: only flagged
    | Propagate         // recurse into the next space's own link

  ghost function StepOf(l: MetaEntity): ContentsStep
    reads l, l.nextLink
  {
    if l.nextLink == null then AtEndOfChain
    else if l.beingWritten then BeingWritten
    else
      var s := l.nextLink.space;
      if (if s == null then l.value == null else s.entity == l.value) then AtUniverse
      else if l.persistent && s == null then NullStorageCheck
      else if l.persistent && s.isStorage then Schedule
      else if s == null then NoNextSpace
      else Propagate
  }

  ghost function NextLinks(path: seq<MetaEntity>): set<MetaEntity?>
    reads path
  {
    set i | 0 <= i < |path| :: path[i].nextLink
  }

  /**
   * `path` is the upward walk of `noteContentsChanged` from `l`: every link but
   * the last propagates to the next one, the last one stops. Its existence is
   * the assumption that the containment hierarchy is well founded.
   */
  ghost predicate ContentsPath(l: MetaEntity, path: seq<MetaEntity>)
    reads path, NextLinks(path)
  {
    && |path| > 0 && path[0] == l
    && (forall i :: 0 <= i < |path| - 1 ==>
          path[i].nextLink in NextLinks(path) && StepOf(path[i]) == Propagate
          && path[i].nextLink.space.meta == path[i + 1])
    && path[|path| - 1].nextLink in NextLinks(path)
    && StepOf(path[|path| - 1]) != Propagate
  }

  // ---------------------------------------------------------------------
  // The link
  // ---------------------------------------------------------------------

  class MetaEntity {
    // Link state (the fields the source inherits from SpaceLink).
    var key: Option<Key>
    var space: Space?
    var nextLink: MetaEntity?
    var registered: bool
    var shortcut: int
    var registryBucketChain: MetaEntity?
    var decorationChain: seq<Decoration>
    var decorationMask: DecorationMask
    var idFacet: Option<Facet>

    // Meta-entity state.
    var value: Entity?
    var entityType: Option<EntityTypeInfo>
    var residence: Option<Residence>
    var flagMask: FlagMask
    /** Whether the cached flagset of the mask (`flags`) is bound. */
    var flagsetBound: bool
    var distribution: DistributionState

    // Lifecycle state consulted, not owned.
    var persistent: bool    // kernelState.isPersistent(), isPersistent()
    var stored: bool        // isStored()
    var remote: bool        // isRemote(), kernelState.isRemote()
    var deleting: bool      // isInTransition(deleting)
    var beingWritten: bool  // isBeingWritten()

    constructor ()
      ensures key.None? && space == null && nextLink == null && !registered && shortcut == 0
      ensures registryBucketChain == null && decorationChain == [] && decorationMask == 0
      ensures idFacet.None? && value == null && entityType.None? && residence.None?
      ensures flagMask == {} && !flagsetBound && distribution == Primary
      ensures !persistent && !stored && !remote && !deleting && !beingWritten
    {
      key, space, nextLink, registered, shortcut := None, null, null, false, 0;
      registryBucketChain, decorationChain, decorationMask, idFacet := null, [], 0, None;
      value, entityType, residence, flagMask, distribution := null, None, None, {}, Primary;
      persistent, stored, remote, deleting, beingWritten := false, false, false, false, false;
      flagsetBound := false;
    }

    /** `isForwarder()`, read off the distribution state. */
    predicate IsForwarder()
      reads this
    {
      distribution == Forwarder
    }

    /** `isPrimary()`, read off the distribution state. */
    predicate IsPrimary()
      reads this
    {
      distribution == Primary
    }

    /** `value instanceof Site`. */
    predicate ValueIsSite()
      reads this, value
    {
      value != null && value.isSite
    }

    // ---------------------------
    // Distribution control
    // ---------------------------

    /**
     * `synchInvariants()`: with a residence, assigns a shortcut if there is
     * none and the entity is not a site, adds the link to the registry and
     * answers true; without one, does nothing and answers false.
     */
    method SynchInvariants(rt: Runtime) returns (inserted: bool)
      modifies this`shortcut, rt`log, rt`lastShortcut
      ensures inserted <==> residence.Some?
      ensures old(shortcut) != 0 ==> shortcut == old(shortcut)
      ensures !inserted ==> shortcut == old(shortcut) && rt.log == old(rt.log)
                            && rt.lastShortcut == old(rt.lastShortcut)
      ensures inserted ==> rt.log == old(rt.log) + [RegistryAdded(this)]
      ensures inserted ==> shortcut == if old(shortcut) == 0 && !ValueIsSite()
                                       then old(rt.lastShortcut) + 1 else old(shortcut)
      ensures inserted && !ValueIsSite() ==> shortcut != 0
    {
      if residence.None? {
        return false;
      }
      if shortcut == 0 && !ValueIsSite() {
        shortcut := rt.UniqueInt();
      }
      rt.Record(RegistryAdded(this));
      return true;
    }

    /**
     * `residence(newResidence)`: migrates the link to `newResidence`. Nothing
     * happens when it already resides there; a forwarder aborts before any
     * change. A registered link moving to a remote residence is synchronised
     * with the registry and becomes a replica, and then, when persistent,
     * aborts in `storePrimary`, which always throws.
     */
    method SetResidence(newResidence: Option<Residence>, rt: Runtime) returns (o: Outcome)
      modifies this`residence, this`shortcut, this`distribution, rt`log, rt`lastShortcut
      ensures old(residence) == newResidence || old(IsForwarder()) ==>
                residence == old(residence) && shortcut == old(shortcut) && distribution == old(distribution)
                && rt.log == old(rt.log) && rt.lastShortcut == old(rt.lastShortcut)
      ensures old(residence) == newResidence ==> o == Ok
      ensures old(residence) != newResidence && old(IsForwarder()) ==> o == Fail(MigrationOfForwarders)
      ensures old(residence) != newResidence && !old(IsForwarder()) ==> residence == newResidence
      ensures old(residence) != newResidence && !old(IsForwarder()) && !MigratesRemotely(newResidence) ==>
                o == Ok && shortcut == old(shortcut) && distribution == old(distribution)
                && rt.log == old(rt.log) && rt.lastShortcut == old(rt.lastShortcut)
      ensures old(residence) != newResidence && !old(IsForwarder()) && MigratesRemotely(newResidence) ==>
                && rt.log == old(rt.log) + [RegistryAdded(this)]
                && shortcut == (if old(shortcut) == 0 && !ValueIsSite() then old(rt.lastShortcut) + 1
                                else old(shortcut))
                && distribution == Replica
                && o == (if persistent then Fail(StoringRemotePrimary) else Ok)
    {
      if residence != newResidence {
        if IsForwarder() {
          return Fail(MigrationOfForwarders);
        }
        residence := newResidence;
        if registered && newResidence.Some? {
          if newResidence.value.isLocal {
            // nothing further for a local residence
        } else {
            var _ := SynchInvariants(rt);
            distribution := Replica;
            if persistent {
              return Fail(StoringRemotePrimary);
            }
          }
        }
      }
      return Ok;
    }

    /** Whether moving to `r` is a registered link's move to a remote residence. */
    predicate MigratesRemotely(r: Option<Residence>)
      reads this
    {
      registered && r.Some? && !r.value.isLocal
    }

    /** `becomeForwarder()`. */
    method BecomeForwarder()
      modifies this`distribution
      ensures distribution == Forwarder
    {
      distribution := Forwarder;
    }

    /**
     * `becomeReplica(newResidence)`: a primary turns replica, then the link
     * migrates. Any link but a forwarder ends a replica residing at
     * `newResidence`; a forwarder moving elsewhere aborts unchanged.
     */
    method BecomeReplica(newResidence: Option<Residence>, rt: Runtime) returns (o: Outcome)
      modifies this`residence, this`shortcut, this`distribution, rt`log, rt`lastShortcut
      ensures old(IsForwarder()) && old(residence) != newResidence ==>
                o == Fail(MigrationOfForwarders) && residence == old(residence) && distribution == Forwarder
                && shortcut == old(shortcut) && rt.log == old(rt.log)
      ensures old(IsForwarder()) && old(residence) == newResidence ==>
                o == Ok && distribution == Forwarder && residence == old(residence)
                && shortcut == old(shortcut) && rt.log == old(rt.log)
      ensures !old(IsForwarder()) ==> residence == newResidence && distribution == Replica
      ensures !old(IsForwarder()) && (old(residence) == newResidence || !MigratesRemotely(newResidence)) ==>
                o == Ok && shortcut == old(shortcut) && rt.log == old(rt.log)
      ensures !old(IsForwarder()) && old(residence) != newResidence && MigratesRemotely(newResidence) ==>
                rt.log == old(rt.log) + [RegistryAdded(this)]
                && shortcut == (if old(shortcut) == 0 && !ValueIsSite() then old(rt.lastShortcut) + 1
                                else old(shortcut))
                && o == (if persistent then Fail(StoringRemotePrimary) else Ok)
    {
      if IsPrimary() {
        distribution := Replica;
      }
      o := SetResidence(newResidence, rt);
    }

    // ---------------------------
    // Identity
    // ---------------------------

    /**
     * `setId(identityName, identifier)`: writes the identifier to the first
     * link of the chain that has or is pending the identity; when every link
     * answers Hasnt, appends a new link to the head's space.
     */
    method SetId(identityName: string, identifier: Key, hasIdentity: (MetaEntity, string) -> IdStatus,
                 rt: Runtime, ghost chain: seq<MetaEntity>)
      requires ChainFrom(this, chain)
      modifies rt`log
      ensures var k := FirstIdentityHolder(chain, hasIdentity, identityName);
              rt.log == old(rt.log) + [if k.Some? then IdSet(chain[k.value], identifier)
                                       else NewLinkTo(space, identifier)]
    {
      var link: MetaEntity? := this;
      ghost var i := 0;
      while link != null
        invariant 0 <= i <= |chain|
        invariant i < |chain| ==> link == chain[i]
        invariant i == |chain| ==> link == null
        invariant forall j :: 0 <= j < i ==> hasIdentity(chain[j], identityName) == Hasnt
        invariant rt.log == old(rt.log)
        decreases |chain| - i
      {
        var status := hasIdentity(link, identityName);
        match status {
          case Has =>
            rt.Record(IdSet(link, identifier));
            return;
          case Hasnt =>
            link := link.nextLink;
            i := i + 1;
          case Pending =>
            rt.Record(IdSet(link, identifier));
            return;
        }
      }
      rt.Record(NewLinkTo(space, identifier));
    }

    /** The key `key()` settles on: the bound key, else the primary identity facet's value. */
    function ResolvedKey(): Option<Key>
      reads this, value
    {
      if key.None? && entityType.Some? && entityType.value.primaryIdFacet.Some?
         && !entityType.value.primaryIdFacet.value.isMetaKeyFacet
      then Apply(entityType.value.primaryIdFacet.value, value)
      else key
    }

    /**
     * `key()`: returns the key, binding it lazily from the primary identity
     * facet when unbound. A bound key never changes, and asking again gives
     * the same key.
     */
    method ResolveKey() returns (k: Option<Key>)
      modifies this`key
      ensures k == key == old(ResolvedKey())
      ensures old(key).Some? ==> key == old(key)
      ensures ResolvedKey() == key
    {
      var candidate := key;
      if candidate.None? && entityType.Some? {
        var piFacet := entityType.value.primaryIdFacet;
        if piFacet.Some? && !piFacet.value.isMetaKeyFacet {
          candidate := Apply(piFacet.value, value);
        }
      }
      if candidate.Some? && candidate != key {
        key := candidate;
      }
      return key;
    }

    /**
     * `addId(newId)`: null is ignored; an unbound key takes `newId`; otherwise
     * `newId` becomes an alternate key in the link's space, if any.
     */
    method AddId(newId: Option<Key>, rt: Runtime)
      modifies this`key, rt`log
      ensures newId.None? ==> key == old(key) && rt.log == old(rt.log)
      ensures newId.Some? && old(key).None? ==> key == newId && rt.log == old(rt.log)
      ensures newId.Some? && old(key).Some? ==>
                key == old(key)
                && rt.log == old(rt.log) + (if space != null then [SpacePut(space, newId.value)] else [])
    {
      if newId.None? {
        return;
      }
      if key.None? {
        key := newId;
      } else if space != null {
        rt.Record(SpacePut(space, newId.value));
      }
    }

    /**
     * `synchKey()`: makes the entity's onboard identity agree with the link's
     * key. A missing entity or an unresolvable facet makes it a no-op; a facet
     * that cannot hold the key is replaced by the type's facet for the key.
     * Rebinding through a null entity type or to a null facet throws.
     */
    /** The facet `synchKey()` works with: the bound one, else the type's facet for the key. */
    function ResolvedFacet(): Option<Facet>
      reads this
    {
      if idFacet.Some? then idFacet
      else if entityType.Some? then entityType.value.idFacetFor(key)
      else None
    }

    /** Whether the entity's onboard identity, read through `f`, disagrees with the key. */
    predicate Stale(f: Option<Facet>)
      reads this, value
    {
      value != null && f.Some? && !f.value.isMetaKeyFacet && Apply(f.value, value) != key
    }

    /** The facet bound once `synchKey()` is done: the type's facet for the key replaces one that cannot hold it. */
    function SynchedFacet(): Option<Facet>
      reads this, value
    {
      var f := ResolvedFacet();
      if Stale(f) && !f.value.CanReturn(key) && entityType.Some? then entityType.value.idFacetFor(key)
      else f
    }

    /** Whether `synchKey()` writes the key through the facet it resolved. */
    predicate StaleButHoldable()
      reads this, value
    {
      var f := ResolvedFacet();
      Stale(f) && f.value.CanReturn(key)
    }

    /**
     * Whether `synchKey()` throws: the identity is stale, its facet cannot hold
     * the key, and there is no entity type or it has no facet for the key.
     */
    predicate SynchKeyFails()
      reads this, value
    {
      var f := ResolvedFacet();
      Stale(f) && !f.value.CanReturn(key) && (entityType.None? || entityType.value.idFacetFor(key).None?)
    }

    method SynchKey() returns (o: Outcome)
      modifies this`idFacet, value
      ensures value == null ==> o == Ok && idFacet == old(idFacet)
      ensures o.Fail? <==> old(SynchKeyFails())
      ensures value != null ==> idFacet == old(SynchedFacet())
      ensures old(StaleButHoldable()) ==>
                o == Ok && idFacet == old(ResolvedFacet()) && Apply(idFacet.value, value) == key
      ensures value != null && idFacet.Some? && idFacet.value.isMetaKeyFacet ==>
                value.attributes == old(value.attributes)
      ensures o.Ok? && value != null && idFacet.Some? && !idFacet.value.isMetaKeyFacet ==>
                Apply(idFacet.value, value) == key
      ensures value != null && idFacet.Some? ==>
                value.attributes - {idFacet.value.attribute} == old(value.attributes) - {idFacet.value.attribute}
      ensures value != null && (idFacet.None? || o.Fail?) ==> value.attributes == old(value.attributes)
      ensures old(idFacet).Some? && idFacet != old(idFacet) ==> !old(idFacet).value.CanReturn(key)
      ensures o.Fail? ==> o.failure == NullDereference
    {
      if value == null {
        return Ok;
      }
      if idFacet.None? {
        if entityType.Some? {
          idFacet := entityType.value.idFacetFor(key);
        }
        if idFacet.None? {
          return Ok;
        }
      }
      var f := idFacet.value;
      if !f.isMetaKeyFacet && Apply(f, value) != key {
        if f.CanReturn(key) {
          value.Put(f.attribute, key);
        } else {
          if entityType.None? {
            return Fail(NullDereference);
          }
          idFacet := entityType.value.idFacetFor(key);
          if idFacet.None? {
            return Fail(NullDereference);
          }
          if !idFacet.value.isMetaKeyFacet {
            value.Put(idFacet.value.attribute, key);
          }
        }
      }
      return Ok;
    }

    // ---------------------------
    // Decorations and the decoration mask
    // ---------------------------

    /**
     * `getPoolBinding()`: null whenever the pooled bit is clear, otherwise the
     * first pool decoration (the head is checked first).
     */
    function GetPoolBinding(): (r: Option<Decoration>)
      reads this
      ensures !HasBit(decorationMask, MS_IS_POOLED) ==> r.None?
      ensures HasBit(decorationMask, MS_IS_POOLED) ==> r == FindFirst(decorationChain, PoolKind)
      ensures r.Some? ==> r.value.PoolDecoration? && r.value in decorationChain
    {
      if !HasBit(decorationMask, MS_IS_POOLED) then None
      else if |decorationChain| > 0 && decorationChain[0].PoolDecoration? then Some(decorationChain[0])
      else if |decorationChain| > 0 then FindFirst(decorationChain, PoolKind)
      else None
    }

    /** `versionDecoration()`: null whenever the version bit is clear, else the first version decoration. */
    function GetVersionDecoration(): (r: Option<Decoration>)
      reads this
      ensures !HasBit(decorationMask, MS_HAS_VERSION) ==> r.None?
      ensures HasBit(decorationMask, MS_HAS_VERSION) ==> r == FindFirst(decorationChain, VersionKind)
      ensures r.Some? ==> r.value.VersionDecoration? && r.value in decorationChain
    {
      if !HasBit(decorationMask, MS_HAS_VERSION) then None
      else if |decorationChain| > 0 && decorationChain[0].VersionDecoration? then Some(decorationChain[0])
      else FindFirst(decorationChain, VersionKind)
    }

    /** `serialIdDecoration()`: the first serial-id decoration; no mask bit guards it. */
    function GetSerialIdDecoration(): (r: Option<Decoration>)
      reads this
      ensures r == FindFirst(decorationChain, SerialIdKind)
      ensures r.Some? ==> r.value.SerialIdDecoration? && r.value in decorationChain
    {
      if |decorationChain| > 0 && decorationChain[0].SerialIdDecoration? then Some(decorationChain[0])
      else FindFirst(decorationChain, SerialIdKind)
    }

    /** The pooled bit is set exactly when a pool decoration is attached. */
    ghost predicate PoolMaskConsistent()
      reads this
    {
      HasBit(decorationMask, MS_IS_POOLED) <==> FirstOfKind(decorationChain, PoolKind).Some?
    }

    /** `pool(pool)`: attaches a pool decoration at the head and sets the pooled bit. */
    method SetPool(pool: nat)
      modifies this`decorationChain, this`decorationMask
      ensures decorationChain == [PoolDecoration(pool)] + old(decorationChain)
      ensures decorationMask == old(decorationMask) | MS_IS_POOLED
      ensures GetPoolBinding() == Some(PoolDecoration(pool))
      ensures PoolMaskConsistent()
    {
      decorationChain := [PoolDecoration(pool)] + decorationChain;
      decorationMask := decorationMask | MS_IS_POOLED;
    }

    predicate IsInUse()
      reads this
    {
      HasBit(decorationMask, MS_IS_IN_USE)
    }

    /** `inUse(b)`: sets or clears the in-use bit and no other bit. */
    method InUse(inUse: bool)
      modifies this`decorationMask
      ensures IsInUse() == inUse
      ensures decorationMask & !MS_IS_IN_USE == old(decorationMask) & !MS_IS_IN_USE
      ensures old(PoolMaskConsistent()) ==> PoolMaskConsistent()
    {
      decorationMask := WithInUse(decorationMask, inUse);
    }

    predicate IsTemplate()
      reads this
    {
      HasBit(decorationMask, MS_IS_TEMPLATE)
    }

    /** `isTemplate(flag)` as written: sets the template bit whatever `flag` is. */
    method SetTemplateAsWritten(flag: bool)
      modifies this`decorationMask
      ensures decorationMask == old(decorationMask) | MS_IS_TEMPLATE
      ensures IsTemplate()
    {
      decorationMask := decorationMask | MS_IS_TEMPLATE;
    }

    /** `isTemplate(flag)` as meant: the template bit follows `flag`, no other bit changes. */
    method SetTemplate(flag: bool)
      modifies this`decorationMask
      ensures IsTemplate() == flag
      ensures decorationMask & !MS_IS_TEMPLATE == old(decorationMask) & !MS_IS_TEMPLATE
    {
      decorationMask := WithTemplate(decorationMask, flag);
    }

    predicate IsUniqueizing()
      reads this
    {
      HasBit(decorationMask, MS_IS_UNIQUIZING)
    }

    // ---------------------------
    // The flag mask
    // ---------------------------

    /** `hasAll(flags)`: whether every one of `fs` is set in the flag mask. */
    method HasAll(fs: seq<Flag>) returns (r: bool)
      ensures r <==> AllSet(fs, flagMask)
    {
      for i := 0 to |fs|
        invariant forall j :: 0 <= j < i ==> fs[j].Test(flagMask)
      {
        if !fs[i].Test(flagMask) {
          return false;
        }
      }
      return true;
    }

    predicate IsAtom()
      reads this
    {
      ATOM.Test(flagMask)
    }

    /** `mask(m)`: sets the flag mask and binds its flagset. */
    method SetFlagMask(m: FlagMask)
      modifies this`flagMask, this`flagsetBound
      ensures flagMask == m && flagsetBound
    {
      flagMask := m;
      flagsetBound := true;
    }

    /**
     * `inherit(parent)`: or-s in the parent's flags when the parent's flagset
     * is bound and is not already this link's (one flagset per mask).
     */
    method Inherit(parent: MetaEntity)
      modifies this`flagMask, this`flagsetBound
      ensures old(parent.flagsetBound && !(flagsetBound && flagMask == parent.flagMask)) ==>
                flagMask == old(flagMask) + old(parent.flagMask) && flagsetBound
      ensures !old(parent.flagsetBound && !(flagsetBound && flagMask == parent.flagMask)) ==>
                flagMask == old(flagMask) && flagsetBound == old(flagsetBound)
    {
      if parent.flagsetBound && !(flagsetBound && flagMask == parent.flagMask) {
        PlusBits(parent.flagMask);
      }
    }

    /** `plus(flags...)`: or-s the flags' bits into the mask. */
    method Plus(fs: seq<Flag>)
      modifies this`flagMask, this`flagsetBound
      ensures flagMask == old(flagMask) + MaskOf(fs) && flagsetBound
      ensures AllSet(fs, flagMask)
    {
      var m := flagMask;
      for i := 0 to |fs|
        invariant m == old(flagMask) + MaskOf(fs[..i])
      {
        assert fs[..i + 1][..i] == fs[..i];
        m := m + {fs[i].bit};
      }
      assert fs[..|fs|] == fs;
      SetFlagMask(m);
      PlusSetsExactly(fs, old(flagMask), ATOM);
    }

    /** `plus(bits)`. */
    method PlusBits(bits: FlagMask)
      modifies this`flagMask, this`flagsetBound
      ensures flagMask == old(flagMask) + bits && flagsetBound
    {
      SetFlagMask(flagMask + bits);
    }

    /** `minus(bits)`: clears exactly the given bits. */
    method MinusBits(bits: FlagMask)
      modifies this`flagMask, this`flagsetBound
      ensures flagMask == old(flagMask) - bits && flagsetBound
    {
      SetFlagMask(flagMask - bits);
    }

    /** `minus(f)`: clears the flag and no other. */
    method Minus(f: Flag)
      modifies this`flagMask, this`flagsetBound
      ensures !f.Test(flagMask) && flagsetBound
      ensures forall b :: b in flagMask <==> b in old(flagMask) && b != f.bit
    {
      MinusBits({f.bit});
    }

    /** `setMask(flag, f)`: `plus(f)` when `flag`, `minus(f)` otherwise; no other flag changes. */
    method SetMask(flag: bool, f: Flag)
      modifies this`flagMask, this`flagsetBound
      ensures f.Test(flagMask) == flag && flagsetBound
      ensures forall b :: b != f.bit ==> (b in flagMask <==> b in old(flagMask))
    {
      if flag {
        Plus([f]);
        assert MaskOf([f]) == {f.bit};
      } else {
        Minus(f);
      }
    }

    // ---------------------------
    // Event channels
    // ---------------------------

    /** The index of the event-channel binding (`eventChannelAttachment()`). */
    function ChannelAttachmentIndex(): Option<nat>
      reads this
    {
      FirstOfKind(decorationChain, ChannelKind)
    }

    /** `eventChannel()`: the bound channel, or null. */
    function EventChannelOf(): EventChannel?
      reads this
    {
      match ChannelAttachmentIndex()
      case None => null
      case Some(i) => decorationChain[i].channel
    }

    function BoundChannel(): set<EventChannel>
      reads this
    {
      if EventChannelOf() == null then {} else {EventChannelOf()}
    }

    /**
     * `eventChannel(channel)`: a stub channel removes the binding, any other
     * channel replaces or creates it. A null channel throws on `isStub()`.
     */
    method SetEventChannel(channel: EventChannel?) returns (o: Outcome)
      modifies this`decorationChain
      ensures channel == null ==> o == Fail(NullDereference) && decorationChain == old(decorationChain)
      ensures channel != null ==> o == Ok
      ensures channel != null && !channel.isStub ==> EventChannelOf() == channel
      ensures channel != null && channel.isStub ==>
                decorationChain == Removed(old(decorationChain), FindFirst(old(decorationChain), ChannelKind))
      ensures NonChannel(decorationChain) == NonChannel(old(decorationChain))
      ensures old(OneBinding()) ==> OneBinding()
      ensures old(PoolMaskConsistent()) ==> PoolMaskConsistent()
    {
      var i := ChannelAttachmentIndex();
      if channel == null {
        return Fail(NullDereference);
      }
      if channel.isStub {
        if i.Some? {
          FirstOfKindIsIndexOf(decorationChain, ChannelKind);
          NonChannelIgnoresBindings(decorationChain, i.value, null);
          KindKeptByRemoval(decorationChain, i.value, PoolKind);
          decorationChain := RemoveAt(decorationChain, i.value);
        }
      } else if i.Some? {
        NonChannelIgnoresBindings(decorationChain, i.value, channel);
        FirstOfKindAfterUpdate(decorationChain, ChannelKind, i.value, EventChannelAttachment(channel));
        KindKeptByUpdate(decorationChain, i.value, EventChannelAttachment(channel), PoolKind);
        decorationChain := decorationChain[i.value := EventChannelAttachment(channel)];
      } else {
        NonChannelAppend([EventChannelAttachment(channel)], decorationChain);
        KindKeptByPrepend(decorationChain, EventChannelAttachment(channel), PoolKind);
        decorationChain := [EventChannelAttachment(channel)] + decorationChain;
      }
      return Ok;
    }

    /**
     * `connectTo(channel)`: a null channel throws on `isStub()`; a stub is
     * ignored; with no channel bound, binds `channel`; with one bound,
     * connects `channel` downstream of it (every bound channel is an
     * `EventChannel`, so the source never allocates a new fan-out channel here).
     */
    method ConnectTo(channel: EventChannel?) returns (o: Outcome)
      modifies this`decorationChain, BoundChannel()
      ensures channel == null ==> o == Fail(NullDereference)
      ensures channel != null ==> o == Ok
      ensures channel == null || channel.isStub ==> decorationChain == old(decorationChain)
      ensures var cur := old(EventChannelOf());
              cur != null ==> cur.sinks == if channel == null || channel.isStub then old(cur.sinks)
                                           else old(cur.sinks) + [channel]
      ensures channel != null && !channel.isStub && old(EventChannelOf()) == null ==> EventChannelOf() == channel
      ensures old(EventChannelOf()) != null ==> decorationChain == old(decorationChain)
      ensures NonChannel(decorationChain) == NonChannel(old(decorationChain))
      ensures old(OneBinding()) ==> OneBinding()
      ensures old(PoolMaskConsistent()) ==> PoolMaskConsistent()
    {
      if channel == null {
        return Fail(NullDereference);
      }
      o := Ok;
      if channel.isStub {
        return;
      }
      var i := ChannelAttachmentIndex();
      if i.Some? {
        var current := decorationChain[i.value].channel;
        if current == null {
          NonChannelIgnoresBindings(decorationChain, i.value, channel);
          FirstOfKindAfterUpdate(decorationChain, ChannelKind, i.value, EventChannelAttachment(channel));
          KindKeptByUpdate(decorationChain, i.value, EventChannelAttachment(channel), PoolKind);
          decorationChain := decorationChain[i.value := EventChannelAttachment(channel)];
        } else {
          current.ConnectTo(channel);
        }
      } else {
        var _ := SetEventChannel(channel);
      }
    }

    /** Whether disconnecting `channel` should drop the binding: it is the bound channel, or its last sink. */
    predicate ClearsBinding(channel: EventChannel?)
      reads this, BoundChannel()
    {
      ChannelAttachmentIndex().Some?
      && (channel == EventChannelOf()
          || (EventChannelOf() != null && Without(EventChannelOf().sinks, channel) == []))
    }

    /**
     * `disconnectFrom(channel)` as written: disconnects `channel` from the
     * bound channel. Where it means to drop the binding, it calls
     * `eventChannel(null)`, which throws, so the binding is never dropped.
     */
    method DisconnectFrom(channel: EventChannel?) returns (o: Outcome)
      modifies this`decorationChain, BoundChannel()
      ensures decorationChain == old(decorationChain)
      ensures o == if old(ClearsBinding(channel)) then Fail(NullDereference) else Ok
      ensures var cur := old(EventChannelOf());
              cur != null ==> cur.sinks == if channel == cur then old(cur.sinks) else Without(old(cur.sinks), channel)
    {
      var i := ChannelAttachmentIndex();
      if i.Some? {
        var current := decorationChain[i.value].channel;
        if channel == current {
          o := SetEventChannel(null);
          return;
        } else if current != null {
          current.DisconnectFrom(channel);
          if current.sinks == [] {
            o := SetEventChannel(null);
            return;
          }
        }
      }
      return Ok;
    }

    /**
     * `disconnectFrom(channel)` as meant: where the source calls
     * `eventChannel(null)`, the binding is removed instead; disconnecting the
     * only binding leaves the link with no channel.
     */
    method Disconnect(channel: EventChannel?)
      modifies this`decorationChain, BoundChannel()
      ensures old(ClearsBinding(channel)) ==>
                decorationChain == RemoveAt(old(decorationChain), old(ChannelAttachmentIndex()).value)
      ensures !old(ClearsBinding(channel)) ==> decorationChain == old(decorationChain)
      ensures old(ClearsBinding(channel)) && old(OneBinding()) ==> EventChannelOf() == null
      ensures NonChannel(decorationChain) == NonChannel(old(decorationChain))
      ensures old(PoolMaskConsistent()) ==> PoolMaskConsistent()
      ensures var cur := old(EventChannelOf());
              cur != null ==> cur.sinks == if channel == cur then old(cur.sinks) else Without(old(cur.sinks), channel)
    {
      var i := ChannelAttachmentIndex();
      if i.Some? {
        var current := decorationChain[i.value].channel;
        if channel == current {
          DropBinding(i.value);
        } else if current != null {
          current.DisconnectFrom(channel);
          if current.sinks == [] {
            DropBinding(i.value);
          }
        }
      }
    }

    /** At most one event-channel binding is attached. */
    ghost predicate OneBinding()
      reads this
    {
      forall j :: 0 <= j < |decorationChain| && decorationChain[j].EventChannelAttachment? ==>
        ChannelAttachmentIndex() == Some(j)
    }

    method DropBinding(i: nat)
      requires i < |decorationChain| && decorationChain[i].EventChannelAttachment?
      requires ChannelAttachmentIndex() == Some(i)
      modifies this`decorationChain
      ensures decorationChain == RemoveAt(old(decorationChain), i)
      ensures old(OneBinding()) ==> EventChannelOf() == null
      ensures NonChannel(decorationChain) == NonChannel(old(decorationChain))
      ensures old(PoolMaskConsistent()) ==> PoolMaskConsistent()
    {
      NonChannelIgnoresBindings(decorationChain, i, null);
      KindKeptByRemoval(decorationChain, i, PoolKind);
      if OneBinding() {
        RemovingOnlyBinding(decorationChain, i);
      }
      decorationChain := RemoveAt(decorationChain, i);
    }

    /** `forwardEvent(event)`: hands the event to the bound channel; no channel, no effect. */
    method ForwardEvent(event: Event, rt: Runtime)
      modifies rt`log
      ensures rt.log == old(rt.log) + if EventChannelOf() == null then [] else [Delivered(EventChannelOf(), event)]
    {
      var channel := EventChannelOf();
      if channel != null {
        rt.Record(Delivered(channel, event));
      }
    }

    // ---------------------------
    // Chain-wide operations
    // ---------------------------

    /** `linkFrom(space)`: the first link of the chain bound to `s`, or null. */
    method LinkFrom(s: Space?, ghost chain: seq<MetaEntity>) returns (r: MetaEntity?)
      requires ChainFrom(this, chain)
      ensures r == null <==> forall i :: 0 <= i < |chain| ==> chain[i].space != s
      ensures r != null ==> exists i :: 0 <= i < |chain| && chain[i] == r && r.space == s
                                       && forall j :: 0 <= j < i ==> chain[j].space != s
    {
      var c: MetaEntity? := this;
      ghost var i := 0;
      while c != null
        invariant 0 <= i <= |chain|
        invariant i < |chain| ==> c == chain[i]
        invariant i == |chain| ==> c == null
        invariant forall j :: 0 <= j < i ==> chain[j].space != s
        decreases |chain| - i
      {
        if c.space == s {
          return c;
        }
        c := c.nextLink;
        i := i + 1;
      }
      return null;
    }

    /** `spaceOfClass(spaceClass)`: the first space of the chain that is an instance of the class, or null. */
    method SpaceOfClass(spaceClass: string, ghost chain: seq<MetaEntity>) returns (r: Space?)
      requires ChainFrom(this, chain)
      ensures r == null <==> forall i :: 0 <= i < |chain| ==> !InstanceOf(chain[i].space, spaceClass)
      ensures r != null ==> exists i :: 0 <= i < |chain| && chain[i].space == r && spaceClass in r.classes
                                       && forall j :: 0 <= j < i ==> !InstanceOf(chain[j].space, spaceClass)
    {
      r := null;
      var link: MetaEntity? := this;
      ghost var i := 0;
      while link != null
        invariant 0 <= i <= |chain|
        invariant i < |chain| ==> link == chain[i]
        invariant i == |chain| ==> link == null
        invariant forall j :: 0 <= j < i ==> !InstanceOf(chain[j].space, spaceClass)
        decreases |chain| - i
      {
        if InstanceOf(link.space, spaceClass) {
          r := link.space;
          break;
        }
        link := link.nextLink;
        i := i + 1;
      }
    }

    /**
     * `deleteIn(transaction)`: a remote link fails as unfinished; a link
     * already in the deleting transition enqueues nothing; otherwise one
     * deleted event is enqueued per link of the chain that has a space.
     */
    method DeleteIn(rt: Runtime, ghost chain: seq<MetaEntity>) returns (o: Outcome)
      requires ChainFrom(this, chain)
      modifies rt`log
      ensures remote ==> o == Fail(Unfinished) && rt.log == old(rt.log)
      ensures !remote ==> o == Ok && rt.log == old(rt.log) + if deleting then [] else DeletedEvents(chain)
    {
      if remote {
        return Fail(Unfinished);
      } else if !deleting {
        var link: MetaEntity? := this;
        ghost var i := 0;
        while link != null
          invariant 0 <= i <= |chain|
          invariant i < |chain| ==> link == chain[i]
          invariant i == |chain| ==> link == null
          invariant rt.log == old(rt.log) + DeletedEvents(chain[..i])
          decreases |chain| - i
        {
          assert chain[..i + 1][..i] == chain[..i];
          if link.space != null {
            rt.Record(EntityDeleted(link));
          }
          link := link.nextLink;
          i := i + 1;
        }
        assert chain[..|chain|] == chain;
      }
      return Ok;
    }

    /**
     * `noteContentsChanged()`: walks up the containment hierarchy. It stops
     * at the end of the chain, under the being-written guard and at the
     * universe; a persistent link whose next space is storage schedules one
     * content-updated event; otherwise the notice goes to the next space's
     * own link.
     */
    method NoteContentsChanged(rt: Runtime, ghost path: seq<MetaEntity>) returns (o: Outcome)
      requires ContentsPath(this, path)
      modifies rt`log
      ensures StepOf(path[|path| - 1]) == Schedule ==> rt.log == old(rt.log) + [ContentUpdated(path[|path| - 1])]
      ensures StepOf(path[|path| - 1]) != Schedule ==> rt.log == old(rt.log)
      ensures o == if StepOf(path[|path| - 1]) == NullStorageCheck then Fail(NullDereference) else Ok
      ensures StepOf(this) in {AtEndOfChain, BeingWritten, AtUniverse} ==> path == [this] && rt.log == old(rt.log)
      decreases |path|
    {
      if nextLink == null {
        return Ok;
      }
      if beingWritten {
        return Ok;
      }
      var s := nextLink.space;
      if (if s == null then value == null else s.entity == value) {
        return Ok;
      }
      if persistent && s == null {
        return Fail(NullDereference);
      } else if persistent && s.isStorage {
        rt.Record(ContentUpdated(this));
        return Ok;
      } else {
        if s != null {
          assert |path| > 1;
          ghost var rest := path[1..];
          assert NextLinks(rest) <= NextLinks(path) by {
            forall x | x in NextLinks(rest) ensures x in NextLinks(path) {
              var k :| 0 <= k < |rest| && rest[k].nextLink == x;
              assert path[k + 1].nextLink == x;
            }
          }
          assert ContentsPath(s.meta, rest) by {
            forall k | 0 <= k < |rest| - 1
              ensures rest[k].nextLink in NextLinks(rest) && StepOf(rest[k]) == Propagate
                      && rest[k].nextLink.space.meta == rest[k + 1]
            {
              assert rest[k] == path[k + 1];
            }
          }
          o := s.meta.NoteContentsChanged(rt, rest);
        } else {
          // no next space where one was expected: flagged, nothing propagated
          o := Ok;
        }
      }
    }

    /** `synchPersistence()`: inherits persistence from the next link's stored space. */
    method SynchPersistence(rt: Runtime) returns (o: Outcome)
      modifies rt`log
      ensures nextLink == null ==> o == Ok && rt.log == old(rt.log)
      ensures nextLink != null && space == null ==> o == Fail(AssertionViolated) && rt.log == old(rt.log)
      ensures nextLink != null && space != null ==>
                o == Ok && rt.log == old(rt.log) + if space.isStored && !stored then [MarkedPersistent(this)] else []
    {
      if nextLink != null {
        if space == null {
          return Fail(AssertionViolated);
        }
        if space.isStored && !stored {
          rt.Record(MarkedPersistent(this));
        }
      }
      return Ok;
    }

    /** `unregister()`: a registered link leaves its type's extent and the registry. */
    method Unregister(rt: Runtime)
      modifies this`registered, rt`log
      ensures !registered
      ensures !old(registered) ==> rt.log == old(rt.log)
      ensures old(registered) ==>
                rt.log == old(rt.log) + (if entityType.Some? then [InstanceUnregistered(this)] else [])
                          + [RegistryRemoved(this)]
    {
      if registered {
        if entityType.Some? {
          rt.Record(InstanceUnregistered(this));
        }
        rt.Record(RegistryRemoved(this));
        registered := false;
      }
    }

    /**
     * `purge()`: a remote entity first asks its residence to purge the primary
     * (a copy already gone is ignored), then the link is unregistered and its
     * channel disconnected.
     */
    method Purge(rt: Runtime)
      modifies this`registered, rt`log
      ensures !registered
      ensures rt.log == old(rt.log)
                        + (if remote then [PrimaryPurgeRequested(this)] else [])
                        + (if old(registered) then
                             (if entityType.Some? then [InstanceUnregistered(this)] else []) + [RegistryRemoved(this)]
                           else [])
                        + (if EventChannelOf() == null then [] else [ChannelDisconnected(EventChannelOf())])
    {
      if remote {
        rt.Record(PrimaryPurgeRequested(this));
      }
      Unregister(rt);
      var channel := EventChannelOf();
      if channel != null {
        rt.Record(ChannelDisconnected(channel));
      }
    }

    // ---------------------------
    // Cloning
    // ---------------------------

    /** Every serial-id decoration attached carries a serial below `n`. */
    ghost predicate SerialsBelow(n: nat)
      reads this
    {
      forall j :: 0 <= j < |decorationChain| && decorationChain[j].SerialIdDecoration? ==>
        decorationChain[j].serial < n
    }

    /**
     * `assignSerialId()`: reuses the attached serial-id decoration, or attaches
     * a new one, and makes it the key.
     */
    method AssignSerialId(rt: Runtime) returns (serial: nat)
      modifies this`decorationChain, this`key, rt`nextSerial
      ensures old(GetSerialIdDecoration()).Some? ==>
                serial == old(GetSerialIdDecoration()).value.serial
                && decorationChain == old(decorationChain) && rt.nextSerial == old(rt.nextSerial)
      ensures old(GetSerialIdDecoration()).None? ==>
                serial == old(rt.nextSerial) && rt.nextSerial == serial + 1
                && decorationChain == [SerialIdDecoration(serial)] + old(decorationChain)
      ensures key == Some(SerialKey(serial))
      ensures GetSerialIdDecoration() == Some(SerialIdDecoration(serial))
      ensures old(PoolMaskConsistent()) ==> PoolMaskConsistent()
    {
      var serId := GetSerialIdDecoration();
      if serId.None? {
        serial := rt.NewSerial();
        KindKeptByPrepend(decorationChain, SerialIdDecoration(serial), PoolKind);
        decorationChain := [SerialIdDecoration(serial)] + decorationChain;
      } else {
        serial := serId.value.serial;
      }
      key := Some(SerialKey(serial));
    }

    /**
     * `finishCloning()`: the clone is unregistered and detached from the
     * chain and the registry bucket; a serial-id decoration it inherited is
     * removed and a serial id assigned afresh.
     */
    method FinishCloning(rt: Runtime)
      modifies this`registered, this`nextLink, this`registryBucketChain, this`decorationChain, this`key
      modifies rt`nextSerial
      ensures !registered && nextLink == null && registryBucketChain == null
      ensures old(GetSerialIdDecoration()).None? ==>
                decorationChain == old(decorationChain) && key == old(key) && rt.nextSerial == old(rt.nextSerial)
      ensures var d := old(GetSerialIdDecoration());
              var rest := Removed(old(decorationChain), d);
              d.Some? && FindFirst(rest, SerialIdKind).None? ==>
                && decorationChain == [SerialIdDecoration(old(rt.nextSerial))] + rest
                && key == Some(SerialKey(old(rt.nextSerial)))
                && (old(SerialsBelow(rt.nextSerial)) ==> key != Some(SerialKey(d.value.serial)))
      ensures var d := old(GetSerialIdDecoration());
              var rest := Removed(old(decorationChain), d);
              d.Some? && FindFirst(rest, SerialIdKind).Some? ==>
                decorationChain == rest && key == Some(SerialKey(FindFirst(rest, SerialIdKind).value.serial))
      ensures old(PoolMaskConsistent()) ==> PoolMaskConsistent()
    {
      var sidd := GetSerialIdDecoration();
      registered := false;
      nextLink := null;
      registryBucketChain := null;
      if sidd.Some? {
        ghost var i := FirstOfKind(decorationChain, SerialIdKind).value;
        FirstOfKindIsIndexOf(decorationChain, SerialIdKind);
        assert decorationChain[i].serial < rt.nextSerial ==> sidd.value.serial < rt.nextSerial;
        KindKeptByRemoval(decorationChain, i, PoolKind);
        decorationChain := Removed(decorationChain, sidd);
        var _ := AssignSerialId(rt);
      }
    }

    // ---------------------------
    // Reference encoding
    // ---------------------------

    /**
     * `encodeReference(out)`: a site is encoded as a container; any other
     * entity as its type, residence, decoration mask and primary id, a `Long`
     * id through `intValue()`. A null entity throws once the first three
     * tokens are written. The reference decodes back exactly when the id is
     * not a `Long` beyond `int` range.
     */
    method EncodeReference(out: Encoder) returns (o: Outcome)
      modifies out`tokens
      ensures ValueIsSite() ==> o == Ok && out.tokens == old(out.tokens) + [Codec.ContainerToken(value)]
      ensures !ValueIsSite() && value != null ==>
                o == Ok && out.tokens == old(out.tokens) + Codec.ReferenceTokens(ReferenceOf(), true)
      ensures value == null ==>
                o == Fail(NullDereference)
                && out.tokens == old(out.tokens) + Codec.ReferenceTokens<Entity>(ReferenceOf(), true)[..3]
      ensures !ValueIsSite() && value != null ==>
                Codec.DecodeReference(out.tokens[|old(out.tokens)|..])
                == Some(ReferenceOf().(primaryId := Codec.Narrowed(ReferenceOf().primaryId)))
      ensures !ValueIsSite() && value != null ==>
                (Codec.DecodeReference(out.tokens[|old(out.tokens)|..]) == Some(ReferenceOf())
                 <==> !Codec.LongBeyondInt(ReferenceOf().primaryId))
    {
      if value != null && value.isSite {
        out.tokens := out.tokens + [Codec.ContainerToken(value)];
        return Ok;
      }
      var typeName := if entityType.Some? then Some(entityType.value.name) else None;
      out.tokens := out.tokens + [Codec.TypeToken(typeName), Codec.ResidenceToken(residence),
                                  Codec.IntToken(decorationMask)];
      if value == null {
        return Fail(NullDereference);
      }
      ghost var ref := ReferenceOf();
      out.tokens := out.tokens + [Codec.PrimaryIdTokenAsWritten(PrimaryId(value))];
      assert out.tokens[|old(out.tokens)|..] == Codec.ReferenceTokens(ref, true);
      Codec.DecodeAsWritten<Entity>(ref);
      Codec.RoundTripAsWrittenExactly<Entity>(ref);
      return Ok;
    }

    /**
     * `encodeReference(out)` as meant: the compact `Long` form only for an id
     * that fits an `int`, so every reference decodes back.
     */
    method EncodeReferenceCorrected(out: Encoder) returns (o: Outcome)
      modifies out`tokens
      ensures ValueIsSite() ==> o == Ok && out.tokens == old(out.tokens) + [Codec.ContainerToken(value)]
      ensures !ValueIsSite() && value != null ==>
                o == Ok && out.tokens == old(out.tokens) + Codec.ReferenceTokens(ReferenceOf(), false)
      ensures value == null ==>
                o == Fail(NullDereference)
                && out.tokens == old(out.tokens) + Codec.ReferenceTokens<Entity>(ReferenceOf(), false)[..3]
      ensures !ValueIsSite() && value != null ==>
                Codec.DecodeReference(out.tokens[|old(out.tokens)|..]) == Some(ReferenceOf())
    {
      if value != null && value.isSite {
        out.tokens := out.tokens + [Codec.ContainerToken(value)];
        return Ok;
      }
      var typeName := if entityType.Some? then Some(entityType.value.name) else None;
      out.tokens := out.tokens + [Codec.TypeToken(typeName), Codec.ResidenceToken(residence),
                                  Codec.IntToken(decorationMask)];
      if value == null {
        return Fail(NullDereference);
      }
      out.tokens := out.tokens + [Codec.PrimaryIdToken(PrimaryId(value))];
      assert out.tokens[|old(out.tokens)|..] == Codec.ReferenceTokens(ReferenceOf(), false);
      Codec.RoundTrip<Entity>(ReferenceOf());
      return Ok;
    }

    /** What the reference of a non-site entity carries. */
    function ReferenceOf(): Codec.Reference
      reads this, value
    {
      Codec.Reference(
        if entityType.Some? then Some(entityType.value.name) else None,
        residence, decorationMask,
        if value == null then None else PrimaryId(value))
    }
  }

  /** As written, disconnecting the bound channel itself throws, and the link stays bound to it. */
  method DisconnectBoundChannel() returns (o: Outcome, stillBound: bool)
    ensures o == Fail(NullDereference) && stillBound
  {
    var link := new MetaEntity();
    var a := new EventChannel(false);
    var _ := link.ConnectTo(a);
    o := link.DisconnectFrom(a);
    stillBound := link.EventChannelOf() == a;
  }

  /** As written, disconnecting the last sink of a fan-out channel throws, and the channel stays bound. */
  method DisconnectLastSink() returns (o: Outcome, stillBound: bool)
    ensures o == Fail(NullDereference) && stillBound
  {
    var link := new MetaEntity();
    var c := new EventChannel(false);
    var d := new EventChannel(false);
    var _ := link.ConnectTo(c);
    var _ := link.ConnectTo(d);
    assert Without([d], d) == [];
    o := link.DisconnectFrom(d);
    stillBound := link.EventChannelOf() == c;
  }

  /** As meant, disconnecting the bound channel itself leaves the link with no channel. */
  method DisconnectBoundChannelUnbinds() returns (bound: bool)
    ensures !bound
  {
    var link := new MetaEntity();
    var a := new EventChannel(false);
    var _ := link.ConnectTo(a);
    link.Disconnect(a);
    bound := link.EventChannelOf() != null;
  }

  /** As meant, disconnecting the last sink of a fan-out channel leaves the link with no channel. */
  method DisconnectLastSinkUnbinds() returns (bound: bool)
    ensures !bound
  {
    var link := new MetaEntity();
    var c := new EventChannel(false);
    var d := new EventChannel(false);
    var _ := link.ConnectTo(c);
    var _ := link.ConnectTo(d);
    assert Without([d], d) == [];
    link.Disconnect(d);
    bound := link.EventChannelOf() != null;
  }

  /** `isTemplate(false)` as written still marks a fresh link as a template. */
  method TemplateFlagIgnored() returns (isTemplate: bool)
    ensures isTemplate
  {
    var link := new MetaEntity();
    link.SetTemplateAsWritten(false);
    isTemplate := link.IsTemplate();
  }

  /** `spaceClass.isInstance(space)`. */
  predicate InstanceOf(s: Space?, spaceClass: string) {
    s != null && spaceClass in s.classes
  }
}
