/** Identifiers, identity facets, entity types and residences: the values a link holds. */
module Identity {
  import opened Outcomes

  /** Bounds of a Java `long` and of a Java `int`. */
  const LONG_MIN: int := -0x8000_0000_0000_0000
  const LONG_LIMIT: int := 0x8000_0000_0000_0000
  const INT_MIN: int := -0x8000_0000
  const INT_LIMIT: int := 0x8000_0000

  predicate IsLong(n: int) { LONG_MIN <= n < LONG_LIMIT }
  predicate IsInt(n: int) { INT_MIN <= n < INT_LIMIT }

  /**
   * A container-scoped identifier: a `Long`, a serial-id decoration used as a key
   * (as `assignSerialId` does), or any other identifier object.
   */
  datatype Key =
    | LongKey(n: int)
    | SerialKey(serial: nat)
    | OtherKey(text: string)

  datatype KeyKind = LongKind | SerialKind | OtherKind

  function KindOf(k: Key): KeyKind {
    match k
    case LongKey(_) => LongKind
    case SerialKey(_) => SerialKind
    case OtherKey(_) => OtherKind
  }

  /**
   * An identity facet: an accessor for one identity attribute of an entity.
   * `isMetaKeyFacet` marks the facet that reads the link's own key back;
   * `accepts` are the kinds of key its attribute can hold.
   */
  datatype Facet = Facet(attribute: string, isMetaKeyFacet: bool, accepts: set<KeyKind>) {
    /** `Facet.canReturn(key)`: whether the attribute can hold `k` (null fits any attribute). */
    predicate CanReturn(k: Option<Key>) {
      k.None? || KindOf(k.value) in accepts
    }
  }

  /**
   * What the core consults of an entity's type: its name, its primary identity
   * facet, and `idFacetFor(key)`, the facet suited to a key (an uninterpreted
   * function: the type system is not part of this model).
   */
  datatype EntityTypeInfo = EntityTypeInfo(
    name: string,
    primaryIdFacet: Option<Facet>,
    idFacetFor: Option<Key> -> Option<Facet>)

  /** A network location an entity may reside at. */
  datatype Residence = Residence(site: nat, isLocal: bool)

  /** The distribution role of a link. */
  datatype DistributionState = Primary | Replica | Forwarder

  /** The answer of `SpaceLink.hasIdentity(identityName)`. */
  datatype IdStatus = Has | Hasnt | Pending
}
