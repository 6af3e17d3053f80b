# Meta entities and type comparison, modelled in Dafny

This project models two classes of an entity runtime.

- **`MetaEntity`** is the link that ties an entity to one container (a *space*). One entity has a chain of such links, one per space it belongs to, joined through `nextLink`. Each link holds:
  - the entity's key in that space and its identity facet;
  - optional side state, the *decorations*: pool, version, serial id and event-channel bindings;
  - a 32-bit decoration mask, whose bits cache the presence of decorations and a few role bits;
  - a 64-bit classification flag mask;
  - the entity's residence and its distribution role (primary, replica or forwarder).

  The operations model residence migration and becoming a replica or forwarder, keys and alternate ids, decorations and the two masks, event-channel binding and fan-out, walks over the chain of links (lookup by space, deletion cascade, contents-changed propagation), cloning and the reference encoding.
- **`Type`** contributes:
  - the comparison of two types: subtype test, greatest lower bound, `min`, `max` and strictly-below;
  - the derivation of a type's classification flags from its metatype and implementation class (`initFlags`);
  - the variant chain of a parametric base type;
  - the extent a type inherits through its structure-type ancestry;
  - the lazily created inbound type parameters.

Files:
- `outcomes.dfy` models Java exceptions as `Outcome`/`Result` values.
- `masks.dfy` holds the two masks and the flag constants.
- `identity.dfy` holds keys, facets, entity types and residences.
- `codec.dfy` holds the reference encoding and a decoder for it.
- `events.dfy` holds event channels.
- `meta_entity.dfy` holds the link and its collaborators.
- `types.dfy` holds the type class.

Collaborators this model does not include are represented in one of two ways:
- as a `Runtime.log` of the calls the core makes on them: the entity registry, the transaction, the entity type's extent, `markPersistent`, channel delivery;
- as parameters: the `hasIdentity` answer of a link, the type comparator, the object type, and the metatype and class facts that `initFlags` reads.

A Java exception is an `Outcome.Fail` or `Result.Thrown`. Any state changed before the throw is kept.

## Model

| member | source | states |
|---|---|---|
| MetaEntities.MetaEntity.constructor | code/MetaEntity.java:84 | A new link has no key, space, neighbour, decoration, nor flag. It is unregistered and primary. |
| MetaEntities.MetaEntity.SynchInvariants | code/MetaEntity.java:769-781 | Answers true exactly when a residence is bound, and then adds the link to the registry. A non-site with no shortcut gets a fresh non-zero one. An existing shortcut is never replaced. Without a residence nothing changes. |
| MetaEntities.MetaEntity.SetResidence | code/MetaEntity.java:479-512 | Migrating to the same residence changes nothing. A forwarder moving elsewhere aborts unchanged. Anyone else takes the new residence. A registered link moving to a remote residence is synchronised with the registry and turns replica; a persistent one then fails in `storePrimary`. |
| MetaEntities.MetaEntity.IsForwarder | code/MetaEntity.java:367-369 | Whether the link's distribution role is forwarder. |
| MetaEntities.MetaEntity.IsPrimary | code/MetaEntity.java:443-445 | Whether the link's distribution role is primary. |
| MetaEntities.MetaEntity.BecomeForwarder | code/MetaEntity.java:1264-1267 | The link ends a forwarder. |
| MetaEntities.MetaEntity.BecomeReplica | code/MetaEntity.java:1273-1293 | A non-forwarder ends a replica at the new residence, with the registry effects of a remote migration. A forwarder moving elsewhere aborts with nothing changed. A forwarder staying where it is succeeds with nothing changed. |
| MetaEntities.MetaEntity.SetId | code/MetaEntity.java:227-244 | The identifier goes to the first link of the chain whose answer is Has or Pending. When every link answers Hasnt, a new link to the head's space is created. |
| MetaEntities.FirstIdentityHolder | code/MetaEntity.java:229-240 | Yields the index of the first Has-or-Pending link; every link before it answers Hasnt. None means every link answers Hasnt. |
| MetaEntities.MetaEntity.ResolveKey | code/MetaEntity.java:1000-1016 | Returns the key, binding it from the primary identity facet (not the meta-key facet) when unbound. A bound key is never changed, and a second call returns the same key. |
| MetaEntities.MetaEntity.AddId | code/MetaEntity.java:1021-1029 | Null is ignored. An unbound key takes the id. A bound key stays, and the id becomes an alternate key in the link's space, if there is one. |
| MetaEntities.MetaEntity.SynchKey | code/MetaEntity.java:732-756 | Throws exactly when the resolved facet disagrees with the key, cannot hold it, and there is no entity type or no facet for the key. The new facet is the resolved one, or the type's facet for the key when the resolved one cannot hold it. A facet that can hold the key is kept and then holds it. After success the facet attribute holds the key, and no other attribute changes. |
| MetaEntities.MetaEntity.GetPoolBinding | code/MetaEntity.java:325-335 | Null when the pooled bit is clear, else the first pool decoration of the chain. |
| MetaEntities.MetaEntity.GetVersionDecoration | code/MetaEntity.java:980-985 | Null when the version bit is clear, else the first version decoration. |
| MetaEntities.MetaEntity.GetSerialIdDecoration | code/MetaEntity.java:969-975 | The first serial-id decoration of the chain, or null. |
| MetaEntities.FirstOfKind | code/MetaEntity.java:325-335 | The first decoration of a kind: of that kind, with none of that kind before it. None means there is none at all. |
| MetaEntities.IndexOf | code/MetaEntity.java:676-686 | The first position holding the decoration that `removeDecoration` unlinks; none means the decoration is absent. |
| MetaEntities.FirstOfKindIsIndexOf | code/MetaEntity.java:541-550 | Removing the first decoration of a kind by identity removes that very decoration. |
| MetaEntities.FirstOfKindAfterUpdate | code/MetaEntity.java:541-550 | Rebinding the attachment in place keeps it the first binding. |
| MetaEntities.MetaEntity.SetPool | code/MetaEntity.java:566-569 | Attaches the pool decoration at the head of the chain (the assumed effect of the `PoolDecoration` constructor) and sets the pooled bit. The pool binding then answers that pool, and the pooled bit agrees with the chain. |
| MetaEntities.MetaEntity.IsInUse | code/MetaEntity.java:386-388 | Whether the in-use bit of the decoration mask is set. |
| MetaEntities.MetaEntity.PoolMaskConsistent | code/MetaEntity.java:325-335 | The invariant behind `getPoolBinding`'s early exit: the pooled bit is set exactly when a pool decoration is attached. |
| MetaEntities.MetaEntity.InUse | code/MetaEntity.java:352-354 | The in-use bit follows the argument, no other bit changes, and the pooled bit stays consistent. |
| Masks.WithInUse | code/MetaEntity.java:352-354 | The in-use bit equals the argument, and every other bit is unchanged. |
| Masks.WithTemplate | code/MetaEntity.java:414-416 | The template bit equals the argument, and every other bit is unchanged. |
| MetaEntities.MetaEntity.IsTemplate | code/MetaEntity.java:407-409 | Whether the template bit of the decoration mask is set. |
| MetaEntities.MetaEntity.IsUniqueizing | code/MetaEntity.java:429-431 | Whether the uniquizing bit of the decoration mask is set. |
| MetaEntities.MetaEntity.SetTemplateAsWritten | code/MetaEntity.java:414-416 | Sets the template bit whatever the flag, and only that bit. |
| MetaEntities.MetaEntity.SetTemplate | code/MetaEntity.java:414-416 | The template bit follows the flag, and no other bit changes. |
| MetaEntities.TemplateFlagIgnored | code/MetaEntity.java:414-416 | As written, `isTemplate(false)` leaves a fresh link a template. |
| MetaEntities.MetaEntity.HasAll | code/MetaEntity.java:880-886 | True exactly when every given flag is set in the mask. |
| MetaEntities.MetaEntity.SetFlagMask | code/MetaEntity.java:900-903 | The mask becomes the argument, and its flagset is bound. |
| MetaEntities.MetaEntity.Inherit | code/MetaEntity.java:888-891 | When the parent's flagset is bound and is not already this link's, the parent's bits are or-ed in; otherwise nothing changes. |
| MetaEntities.MetaEntity.Plus | code/MetaEntity.java:908-914 | The new mask is the old one plus exactly the bits of the given flags, and each of them is set. |
| MetaEntities.MetaEntity.PlusBits | code/MetaEntity.java:927-930 | The new mask is the union of the old mask and the bits. |
| MetaEntities.MetaEntity.MinusBits | code/MetaEntity.java:951-954 | The new mask is the old one without the bits. |
| MetaEntities.MetaEntity.Minus | code/MetaEntity.java:935-938 | Clears the flag and no other bit. |
| MetaEntities.MetaEntity.IsAtom | code/MetaEntity.java:893-895 | Whether the ATOM flag is set in the flag mask. |
| MetaEntities.MetaEntity.SetMask | code/MetaEntity.java:959-961 | The flag's bit follows the argument, and no other bit changes. |
| Masks.MaskOfExactly | code/MetaEntity.java:908-914 | The or of a list of flags holds exactly their bits. |
| Masks.PlusSetsExactly | code/MetaEntity.java:908-914 | Or-ing in a list of flags sets each of them; any other flag keeps its old value. |
| MetaEntities.MetaEntity.EventChannelOf | code/MetaEntity.java:533-536 | The channel of the first channel binding, or null when there is none. |
| MetaEntities.MetaEntity.SetEventChannel | code/MetaEntity.java:541-550 | A null channel throws with nothing changed. A stub removes the first binding. Any other channel becomes the bound channel, replacing the binding or adding one. Other decorations are kept, a single binding stays single, and the pooled bit still agrees with the chain. |
| MetaEntities.MetaEntity.ConnectTo | code/MetaEntity.java:1341-1362 | A null channel throws on `isStub()` with nothing changed. A stub is ignored. With no channel bound, the channel is bound. With one bound, the channel is appended to the bound channel's sinks and the chain is untouched. Other decorations are kept, and the pooled bit still agrees with the chain. |
| MetaEntities.MetaEntity.DisconnectFrom | code/MetaEntity.java:1367-1380 | As written: the channel is removed from the bound channel's sinks. Where the binding should be dropped (the channel is the bound one, or the last sink is gone), the call throws and the chain is unchanged. |
| MetaEntities.MetaEntity.Disconnect | code/MetaEntity.java:1367-1380 | Corrected: the binding is removed exactly where the source means to drop it, and the link is then left with no channel. Other decorations are unchanged, and the pooled bit still agrees with the chain. |
| MetaEntities.MetaEntity.DropBinding | code/MetaEntity.java:1372 | Removes the binding; with a single binding, none is left. Other decorations are kept, and the pooled bit still agrees with the chain. |
| MetaEntities.KindKeptByUpdate | code/MetaEntity.java:325-335 | Replacing a decoration of another kind by another of another kind keeps whether a kind is present. |
| MetaEntities.KindKeptByRemoval | code/MetaEntity.java:325-335 | Removing a decoration of another kind keeps whether a kind is present. |
| MetaEntities.KindKeptByPrepend | code/MetaEntity.java:325-335 | Attaching a decoration of another kind keeps whether a kind is present. |
| MetaEntities.NonChannelAppend | code/MetaEntity.java:541-550 | Filtering out bindings distributes over concatenation. |
| MetaEntities.NonChannelIgnoresBindings | code/MetaEntity.java:541-550 | Replacing, removing or prepending a binding leaves the other decorations as they were. |
| MetaEntities.RemovingOnlyBinding | code/MetaEntity.java:1367-1380 | Removing the only binding leaves none. |
| MetaEntities.DisconnectBoundChannel | code/MetaEntity.java:1367-1373 | As written, disconnecting a link's bound channel throws, and the channel stays bound. |
| MetaEntities.DisconnectLastSink | code/MetaEntity.java:1374-1377 | As written, disconnecting the last sink of the bound channel throws, and the channel stays bound. |
| MetaEntities.DisconnectBoundChannelUnbinds | code/MetaEntity.java:1367-1373 | Corrected, the same call leaves the link unbound. |
| MetaEntities.DisconnectLastSinkUnbinds | code/MetaEntity.java:1374-1377 | Corrected, the same call leaves the link unbound. |
| MetaEntities.MetaEntity.ForwardEvent | code/MetaEntity.java:1385-1389 | The event is delivered to the bound channel, or nothing happens when none is bound. |
| MetaEntities.MetaEntity.LinkFrom | code/MetaEntity.java:555-561 | Null exactly when no link of the chain is in the space; otherwise the first link that is. |
| MetaEntities.MetaEntity.SpaceOfClass | code/MetaEntity.java:604-613 | Null exactly when no space of the chain is an instance of the class; otherwise the first space that is. |
| MetaEntities.MetaEntity.DeleteIn | code/MetaEntity.java:1058-1069 | A remote entity fails as unfinished. A link already deleting adds nothing. Otherwise exactly one deleted event is added per link of the chain that has a space. The link each event carries is a ghost label of the model: the source's event has no argument. |
| MetaEntities.DeletedEventsOnePerSpacedLink | code/MetaEntity.java:1058-1069 | The cascade holds as many events as links with a space. Each is a deleted event labelled with such a link, and every such link has one. The label is the model's, not the source event's. |
| MetaEntities.MetaEntity.NoteContentsChanged | code/MetaEntity.java:1394-1423 | The walk up the containment hierarchy schedules at most one content update, at the persistent link whose next space is storage. It stops at the end of the chain, under the being-written guard and at the universe. It throws on a persistent link whose next link has no space. |
| MetaEntities.MetaEntity.SynchPersistence | code/MetaEntity.java:786-792 | With a next link, the link is marked persistent exactly when its space is stored and it is not. A missing space fails the assertion. |
| MetaEntities.MetaEntity.Unregister | code/MetaEntity.java:797-805 | A registered link leaves its type's extent (when it has a type) and then the registry. Either way it ends unregistered. |
| MetaEntities.MetaEntity.Purge | code/MetaEntity.java:704-718 | A remote entity first asks for the primary's purge. Then the link is unregistered, and then the bound channel is disconnected. |
| MetaEntities.MetaEntity.AssignSerialId | code/MetaEntity.java:641-647 | An attached serial-id decoration is reused; otherwise a fresh one is attached at the head. Either way its serial becomes the key, and the pooled bit still agrees with the chain. |
| MetaEntities.MetaEntity.FinishCloning | code/MetaEntity.java:676-686 | The clone ends unregistered and detached. An inherited serial-id decoration is removed and a serial id assigned again. When no other remains, the new id is fresh and differs from the inherited one. The pooled bit still agrees with the chain. |
| MetaEntities.MetaEntity.EncodeReference | code/MetaEntity.java:1472-1489 | A site is written as a container. Any other entity is written as type, residence, mask and primary id, with a `Long` id narrowed by `intValue()`. The tokens decode to the reference with its id narrowed, which is the reference itself exactly when the id is not a `Long` beyond `int` range. A null entity throws after three tokens. |
| MetaEntities.MetaEntity.EncodeReferenceCorrected | code/MetaEntity.java:1472-1489 | Corrected: the compact form is used only for a `Long` id that fits an `int`. Every non-site reference then decodes back to exactly itself. |
| Codec.IntValue | code/MetaEntity.java:1484 | Gives an `int` congruent to its argument modulo 2^32, equal to it when it fits. |
| Codec.ReferenceTokens | code/MetaEntity.java:1476-1487 | A reference is four tokens: type, residence, mask, and then a long or generic id. |
| Codec.RoundTrip | code/MetaEntity.java:1476-1487 | Decoding the corrected encoding gives back every reference. |
| Codec.PrimaryIdTokenAsWritten | code/MetaEntity.java:1482-1486 | The id token as written: a `Long` is written as a long through `intValue()`, and any other id generically. |
| Codec.PrimaryIdToken | code/MetaEntity.java:1482-1486 | The id token as meant: the long form only for a `Long` that fits an `int`, the generic form otherwise. |
| Codec.Narrowed | code/MetaEntity.java:1483-1484 | The id that `intValue()` leaves is the id itself exactly when it is not a `Long` beyond `int` range. |
| Codec.DecodeAsWritten | code/MetaEntity.java:1476-1487 | Decoding the encoding as written gives back the reference with its primary id narrowed. |
| Codec.RoundTripAsWrittenExactly | code/MetaEntity.java:1476-1487 | The encoding as written gives back the reference exactly when its id is not a `Long` beyond `int` range. |
| Codec.RoundTripAsWritten | code/MetaEntity.java:1476-1487 | The encoding as written round-trips whenever a `Long` id fits an `int`. |
| Codec.TruncationLosesLongIds | code/MetaEntity.java:1483-1484 | As written, ids 2^32 and 0 encode alike, and the first decodes as the second. |
| Codec.EncodingInjective | code/MetaEntity.java:1476-1487 | The corrected encoding tells any two references apart. |
| Types.Type.IsSpecified | code/Type.java:901-903 | Whether the implementation class is neither Object nor Any. |
| Types.Type.CompareWith | code/Type.java:2033-2052 | A null type throws. Types of one class are never incomparable: SUB exactly when this one is a subtype, EQUAL exactly when neither is. Other classes are decided by the comparator. |
| Types.SameClassConverse | code/Type.java:2033-2052 | Within one class, each side's answer is the converse of the other's, except for two subtypes, which both answer SUB. |
| Types.Type.IsSubtypeOf | code/Type.java:926-937 | True for the type itself. For any other type, true exactly when the comparison is EQUAL or SUB. A null type throws. |
| Types.Type.Glb | code/Type.java:2067-2079 | A null type gives this type. The call throws exactly when the comparator has no answer. EQUAL and SUB give this type, SUPER gives `t`, and INCOMPARABLE gives the object type. |
| Types.GlbIsLowerBound | code/Type.java:2067-2079 | For one class, the glb is one of the two types and a subtype of both. |
| Types.GlbOfSupertype | code/Type.java:2067-2079 | The glb of a type and one of its supertypes is the type itself. |
| Types.GlbCommutes | code/Type.java:2067-2079 | For one class with exactly one subtype, the glb is that subtype, in either order. |
| Types.Type.Lt | code/Type.java:2084-2086 | True exactly when the comparison is SUB. A null type throws. |
| Types.LtIsSubtype | code/Type.java:2084-2086 | Strictly below implies subtype. |
| Types.Type.Min | code/Type.java:2099-2129 | Null, the same type, or an unspecified argument gives this type; an unspecified receiver gives the argument. Between two specified types, a void argument gives this type, and any other argument gives the same result as `glb`. The result is always one of the two types or the object type. |
| Types.Type.Max | code/Type.java:2134-2141 | Throws exactly on a null type or a missing comparison. Otherwise the result is this type exactly when it compares SUPER (or is the argument), and is one of the two. |
| Types.MaxIsUpperBound | code/Type.java:2134-2141 | For one class, the max is one of the two types, and both are subtypes of it. |
| Types.Derives | code/Type.java:1323-1425 | The twenty flag rules of `initFlags`, one per flag bit. |
| Types.InitialFlags | code/Type.java:1313-1445 | The derived mask keeps every old bit except ATOM, and Any leaves it as it was. A structured metatype has no ATOM. JCOLLECTION and ECOLLECTION are never derived together. A clone-blocked metatype keeps the old INSTANTIABLE and CLONEABLE bits. A concrete structure or an instantiable class is otherwise CLONEABLE. |
| Types.StageNext | code/Type.java:1323-1401 | Running one more rule adds that rule's flag when it applies, and nothing else. |
| Types.StageAtom | code/Type.java:1331-1334 | The third rule sets ATOM for an atomic metatype. |
| Types.StageStructured | code/Type.java:1340-1345 | The fifth rule sets STRUCTURED and drops ATOM for a structured metatype. |
| Types.StageAll | code/Type.java:1313-1425 | All twenty rules in order give the derived mask. |
| Types.Type.Plus | code/Type.java:1447-1455 | Sets the flag in the type's link. |
| Types.Type.PlusIf | code/Type.java:1323-1401 | One rule: sets its flag exactly when the rule applies, advancing the mask one stage. |
| Types.Type.InitMetatypeFlags | code/Type.java:1323-1345 | Applies the metatype's rules, and counts a reason not to clone exactly when the metatype is immutable or atomic. |
| Types.Type.InitCollectionFlags | code/Type.java:1347-1369 | Applies the collection rules; JCOLLECTION only without ECOLLECTION. |
| Types.Type.InitStructureFlags | code/Type.java:1371-1401 | Applies the structure and graph rules, and counts a reason to clone exactly for a concrete structure. |
| Types.Type.InitGraphFlags | code/Type.java:1391-1401 | Applies the connective, group and component rules. |
| Types.Type.InitFlags | code/Type.java:1313-1445 | Fails with a CLONEABLE conflict exactly for a concrete structure whose metatype forbids cloning, with every non-cloning flag already set. Otherwise the mask becomes the derived mask. |
| Types.Type.AddVariant | code/Type.java:1737-1741 | A base type puts a non-base subtype at the head of its variant chain, which stays a well-formed chain. Any other pairing fails the assertion with nothing changed. |
| Types.FirstBoundExtent | code/Type.java:1852-1859 | The first type of the ancestry with an extent; every type before it has none. |
| Types.Type.EnclosingExtent | code/Type.java:1847-1864 | An entity type without an extent caches the first extent of its structure-type ancestry, or the null extent. A cached extent is never recomputed. The null extent reads as null. |
| Types.Type.InboundParameter | code/Type.java:1228-1237 | Returns the parameter of that name: created for this type on first request, and the same object afterwards. Cached parameters stay keyed by name and owned by this type. |

## Left out

- `super.finishCloning()` and `super.unregister()` of the link base class are not part of this model. `FinishCloning` models only this class's part, and `Unregister` only clears `registered`.
- The entity registry is assumed present. The `entityRegistry == null` paths are not modelled.
- `storePrimary` always throws; its storage argument is not modelled.
- `supertype()` binds its supertype lazily. Here it is read as a field, because the binding code is not part of this model.
- The cached flagset is the boolean `flagsetBound`. Flagsets are taken as interned, one per mask, so `inherit` compares masks.
- `plus(Flagset)` and `minus(Flagset)` are `PlusBits` and `MinusBits` applied to the flagset's mask.
- The bit positions of the classification flags are not in the source read here; the model picks them.
- The values of `MS_IS_POOLED`, `MS_IS_IN_USE`, `MS_IS_TEMPLATE`, `MS_IS_UNIQUIZING`, `MS_HAS_VERSION` and `MS_IN_LIFECYCLE_TRANSITION` are not in the source read here either. The model picks six distinct single bits; every property proved about the decoration mask holds for any such choice.
- `IsForwarder`, `IsPrimary`: in `MetaEntity` itself these return the constants `false` and `true` (MetaEntity.java lines 367-369 and 443-445). The subclasses that override them are not part of this model. The `distribution` field stands for those overrides, so a base link is primary and not a forwarder until `BecomeReplica` or `BecomeForwarder` changes its role.
- `SetPool`, `SetEventChannel`, `AssignSerialId`: the constructors of `PoolDecoration`, `EventChannelAttachment` and `SerialIdDecoration` are not part of this model. The model assumes that each links the new decoration in at the head of the link's decoration chain, as the `getPoolBinding` fast path on the head suggests.
- The serial counter of new serial-id decorations is `Runtime.nextSerial`, because its allocator is not part of this model.
- Identifiers, residences and facets are compared by value, including `residence != newResidence`.
- The type comparator (`comparisonWith`) is a parameter, and so is the object type `glb` falls back to. `compareInnerWith` and the type system behind them are left out.
- `lub` is left out: it always throws `Unfinished`.
- The `LifecycleState` diagnostics of `plus`, the `trap` assignments and the `println` calls are left out.
- `JCOLLECTION.checkMutuallyExclusive(ECOLLECTION)` is left out. The flag class is not part of this model, so what the check does on a violation is unknown here. `InitialFlags` proves that the bits `initFlags` derives never violate it when the old mask lacked JCOLLECTION.
- `hasFlag` and `minus` of a type are modelled as the flag operations of the type's link.
- The version setter, `deallocate`, `isSubMetatypeOf`, replication, the lifecycle actions and the kernel-state synchronisation are outside the modelled core.
- Locking (`synchronized`) and concurrent access are left out.
- `connectTo` has a branch that wraps a bound channel into a new fan-out channel. Every bound channel is an `EventChannel`, so the branch is dead and is not modelled.
- `SetId` does not take a null identifier: the source passes one on unguarded to the link's `setId`, and the model's identifier is a `Key`. A null `hasIdentity` answer cannot occur either, because the answer is a total parameter.
- `addVariant` is documented as appending to the variant chain, but the code prepends. The model follows the code.
- `BecomeReplica`: a persistent replica fails after its fields have changed, because `storePrimary` always throws. The model keeps those changes.
- `NoteContentsChanged` assumes a well-founded containment hierarchy, given as an upward path. A cyclic hierarchy that the source would loop on is not covered.
- `AddVariant` assumes that a failing `Assertion.check` throws, so an illegal pairing changes nothing. `Assertion` is not part of this model. If a failing check only logged, the source would relink the variant anyway (Type.java lines 1739-1740), and the model does not cover that.
- `SynchPersistence` makes the same assumption about `Assertion.check(space != null)`. If the check only logged, the next line would dereference the null space. The call fails either way, with nothing changed, but the failure kind would differ.
- `ChainFrom` and `StructureAncestry` assume the chain of links and the supertype ancestry are finite and acyclic, given as ghost sequences. `SetId`, `LinkFrom`, `SpaceOfClass`, `DeleteIn` and `EnclosingExtent` are proved only for such chains; a cyclic chain, on which the source would loop, is not covered.
- `Unregister`, `Purge`: the channel disconnect and the registry calls are recorded as effects, not carried out.

## Findings

| source | as written | input that shows it | evidently intended | confidence | as-written member | corrected member |
|---|---|---|---|---|---|---|
| code/MetaEntity.java:1367-1380 | Calls `eventChannel(null)` to drop the binding, and that call dereferences null in `channel.isStub()` (line 543) | Bind channel `a` with `connectTo(a)`, then call `disconnectFrom(a)` | Remove the binding, leaving the link with no channel | not executed | MetaEntities.MetaEntity.DisconnectFrom | MetaEntities.MetaEntity.Disconnect |
| code/MetaEntity.java:1483-1484 | Writes a `Long` primary id through `intValue()`, keeping 32 of its 64 bits | primary id 2^32, which encodes like 0 (`Codec.TruncationLosesLongIds`) | Use the compact form only when the id fits an `int` | not executed | MetaEntities.MetaEntity.EncodeReference | MetaEntities.MetaEntity.EncodeReferenceCorrected |
| code/MetaEntity.java:414-416 | `isTemplate(flag)` sets the template bit whatever `flag` is | `isTemplate(false)` on a fresh link | The template bit follows `flag` | not executed | MetaEntities.TemplateFlagIgnored | MetaEntities.MetaEntity.SetTemplate |
