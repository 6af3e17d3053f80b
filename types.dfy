/**
 * A type of the type system: its comparison with other types (subtype test,
 * greatest lower bound, min and max), the classification flags it derives
 * from its metatype and implementation class, its variant chain, its extent
 * inherited through the supertype ancestry, and its lazily created inbound
 * parameters.
 */
module Types {
  import opened Outcomes
  import opened Masks
  import MetaEntities

  /** The implementation class a type describes, as far as the type methods look at it. */
  datatype ClassRef = ObjectClass | AnyClass | VoidClass | Named(name: string)

  /** `TypeComparisonKind`. */
  datatype Kind = Equal | Sub | Super | Incomparable {
    /** `isLE()`: equal or below. */
    predicate IsLE() {
      this == Equal || this == Sub
    }
  }

  /** The kind the other side of a comparison sees. */
  function Converse(k: Kind): Kind {
    match k
    case Equal => Equal
    case Sub => Super
    case Super => Sub
    case Incomparable => Incomparable
  }

  /**
   * The type comparator consulted for types of different implementation
   * classes (`comparisonWith(t).kind`). It may answer null.
   */
  type Comparator = (Type, Type) -> Option<Kind>

  /** A cached extent: the shared null extent, or a real one. */
  datatype ExtentRef = NullExtent | Extent(id: nat)

  /** The metatype facts `initFlags` consults. */
  datatype Metatype = Metatype(
    isAny: bool,          // metatype == Any_
    isImmutable: bool,
    isAtom: bool,
    isReference: bool,    // isA(Reference_)
    structured: bool,
    isConnective: bool)   // metatype == Connective_

  /** The facts about the implementation class `initFlags` consults. */
  datatype ClassTraits = ClassTraits(
    isFunction: bool, isArray: bool, isECollection: bool, isCollection: bool,
    isList: bool, isMap: bool, isEObject: bool, isIStructure: bool, isInterface: bool,
    isEntity: bool, isGraph: bool, isNode: bool, isGroup: bool, isComponent: bool,
    isCloneable: bool, isInstantiable: bool)

  /** `dontClone > 0`: an immutable or atomic metatype is never cloned. */
  predicate CloneBlocked(mt: Metatype) {
    mt.isImmutable || mt.isAtom
  }

  /** Whether the class is a concrete structure (`STRUCTURE`, and a reason to clone). */
  predicate IsConcreteStructure(c: ClassTraits) {
    c.isIStructure && !c.isInterface
  }

  /** `initFlags` aborts with a CLONEABLE conflict: a concrete structure whose metatype forbids cloning. */
  predicate CloneConflict(mt: Metatype, c: ClassTraits) {
    !mt.isAny && CloneBlocked(mt) && IsConcreteStructure(c)
  }

  /** Whether `initFlags` sets the flag at bit `b` for a type whose mask held `m0` beforehand. */
  predicate Derives(b: BitIndex, m0: FlagMask, mt: Metatype, c: ClassTraits) {
    if b == 0 then c.isFunction
    else if b == 1 then mt.isImmutable
    else if b == 2 then mt.isAtom && !mt.structured
    else if b == 3 then mt.isReference
    else if b == 4 then mt.structured
    else if b == 5 then c.isArray
    else if b == 6 then c.isECollection
    else if b == 7 then c.isCollection && !c.isECollection && !ECOLLECTION.Test(m0)
    else if b == 8 then c.isList
    else if b == 9 then c.isMap
    else if b == 10 then c.isEObject
    else if b == 11 then IsConcreteStructure(c)
    else if b == 12 then c.isEntity
    else if b == 13 then c.isGraph
    else if b == 14 then c.isNode
    else if b == 15 then mt.isConnective
    else if b == 16 then c.isGroup
    else if b == 17 then c.isComponent
    else if b == 18 then !CloneBlocked(mt) && c.isInstantiable
    else if b == 19 then !CloneBlocked(mt) && (IsConcreteStructure(c) || c.isCloneable || c.isInstantiable)
    else false
  }

  /**
   * The mask `initFlags` leaves: the old mask with ATOM dropped for a
   * structured metatype, plus the derived flags, for any metatype but Any.
   * The ensures are the rules the flag table is meant to keep.
   */
  function InitialFlags(m0: FlagMask, mt: Metatype, c: ClassTraits): (m: FlagMask)
    ensures mt.isAny ==> m == m0
    ensures !mt.isAny && mt.structured ==> !ATOM.Test(m)
    ensures !mt.isAny && !JCOLLECTION.Test(m0) ==> !(JCOLLECTION.Test(m) && ECOLLECTION.Test(m))
    ensures !mt.isAny && CloneBlocked(mt) ==>
              (INSTANTIABLE.Test(m) <==> INSTANTIABLE.Test(m0)) && (CLONEABLE.Test(m) <==> CLONEABLE.Test(m0))
    ensures !mt.isAny && !CloneBlocked(mt) && (IsConcreteStructure(c) || c.isInstantiable) ==> CLONEABLE.Test(m)
    ensures forall f: BitIndex :: f in m0 && f != ATOM.bit ==> f in m
  {
    if mt.isAny then m0
    else set b: BitIndex | (b in m0 && !(mt.structured && b == ATOM.bit)) || (b < 20 && Derives(b, m0, mt, c))
  }

  /**
   * The mask once the first `n` flag rules of `initFlags` have run (the rules
   * run in bit order); ATOM is set by the third and dropped by the fifth.
   */
  function StageMask(m0: FlagMask, mt: Metatype, c: ClassTraits, n: nat): FlagMask {
    set b: BitIndex | (b in m0 && !(n > STRUCTURED.bit && mt.structured && b == ATOM.bit))
                      || (b < n && (if b == ATOM.bit && n <= STRUCTURED.bit then mt.isAtom else Derives(b, m0, mt, c)))
  }

  /** Running one more flag rule (any but the third and fifth) adds that rule's flag, if derived. */
  lemma StageNext(m0: FlagMask, mt: Metatype, c: ClassTraits, n: BitIndex)
    requires n < 20 && n != ATOM.bit && n != STRUCTURED.bit
    ensures StageMask(m0, mt, c, n + 1) == StageMask(m0, mt, c, n) + (if Derives(n, m0, mt, c) then {n} else {})
  {
  }

  /** The third rule sets ATOM for an atomic metatype. */
  lemma StageAtom(m0: FlagMask, mt: Metatype, c: ClassTraits)
    ensures StageMask(m0, mt, c, 3) == StageMask(m0, mt, c, 2) + (if mt.isAtom then {ATOM.bit} else {})
  {
  }

  /** The fifth rule sets STRUCTURED and drops ATOM for a structured metatype. */
  lemma StageStructured(m0: FlagMask, mt: Metatype, c: ClassTraits)
    ensures StageMask(m0, mt, c, 5)
            == if mt.structured then StageMask(m0, mt, c, 4) + {STRUCTURED.bit} - {ATOM.bit}
               else StageMask(m0, mt, c, 4)
  {
  }

  /** All twenty rules give the mask `initFlags` promises. */
  lemma StageAll(m0: FlagMask, mt: Metatype, c: ClassTraits)
    requires !mt.isAny
    ensures StageMask(m0, mt, c, 20) == InitialFlags(m0, mt, c)
  {
  }

  /** A parameter whose value references its owner type. */
  class TypeParameter {
    const name: string
    const owner: Type

    constructor (name: string, owner: Type)
      ensures this.name == name && this.owner == owner
    {
      this.name := name;
      this.owner := owner;
    }
  }

  /** `list` is the variant chain starting at `head`, ending at null. */
  ghost predicate VariantChain(head: Type?, list: seq<Type>)
    reads list
  {
    && (|list| == 0 <==> head == null)
    && (|list| > 0 ==> list[0] == head && list[|list| - 1].variantChain == null)
    && (forall i :: 0 <= i < |list| - 1 ==> list[i].variantChain == list[i + 1])
  }

  /**
   * `walk` is the supertype ancestry `enclosingExtent` visits from `start`:
   * the structure types reached through `supertype` until one that is not.
   */
  ghost predicate StructureAncestry(start: Type?, walk: seq<Type>)
    reads walk
  {
    && (|walk| == 0 <==> start == null || !start.isStructureType)
    && (|walk| > 0 ==> walk[0] == start)
    && (forall i :: 0 <= i < |walk| ==> walk[i].isStructureType)
    && (forall i :: 0 <= i < |walk| - 1 ==> walk[i].supertype == walk[i + 1])
    && (|walk| > 0 ==> walk[|walk| - 1].supertype == null || !walk[|walk| - 1].supertype.isStructureType)
  }

  /** The index of the first type of `walk` with an extent bound. */
  function FirstBoundExtent(walk: seq<Type>): (r: Option<nat>)
    reads walk
    ensures r.Some? ==> r.value < |walk| && walk[r.value].extent.Some?
    ensures r.Some? ==> forall j :: 0 <= j < r.value ==> walk[j].extent.None?
    ensures r.None? ==> forall j :: 0 <= j < |walk| ==> walk[j].extent.None?
  {
    if walk == [] then None
    else if walk[0].extent.Some? then Some(0)
    else match FirstBoundExtent(walk[1..])
      case None => None
      case Some(i) => Some(i + 1)
  }

  class Type {
    const iClass: ClassRef
    /** `isSubtype()`: a subtype of a parametric base type. */
    const isSubtype: bool
    /** `isBaseType()`. */
    const isBaseType: bool
    /** `isEntityType()`. */
    const isEntityType: bool
    /** `this instanceof StructureType`. */
    const isStructureType: bool
    /** `meta()`: the type's own link, which holds its flag mask. */
    const meta: MetaEntities.MetaEntity

    var supertype: Type?
    var extent: Option<ExtentRef>
    var variantChain: Type?
    var inboundParameters: Option<map<string, TypeParameter>>

    constructor (iClass: ClassRef, isSubtype: bool, isBaseType: bool, isEntityType: bool,
                 isStructureType: bool, meta: MetaEntities.MetaEntity, supertype: Type?)
      ensures this.iClass == iClass && this.isSubtype == isSubtype && this.isBaseType == isBaseType
      ensures this.isEntityType == isEntityType && this.isStructureType == isStructureType
      ensures this.meta == meta && this.supertype == supertype
      ensures extent.None? && variantChain == null && inboundParameters.None?
    {
      this.iClass := iClass;
      this.isSubtype := isSubtype;
      this.isBaseType := isBaseType;
      this.isEntityType := isEntityType;
      this.isStructureType := isStructureType;
      this.meta := meta;
      this.supertype := supertype;
      extent := None;
      variantChain := null;
      inboundParameters := None;
    }

    /** `isSpecified()`: neither Object nor Any. */
    predicate IsSpecified() {
      iClass != ObjectClass && iClass != AnyClass
    }

    // ---------------------------
    // Comparison
    // ---------------------------

    /**
     * `compareWith(t)`: types of one implementation class compare by their
     * subtype-ness and never as incomparable; others are left to the
     * comparator. A null `t` throws.
     */
    function CompareWith(t: Type?, cmp: Comparator): (r: Result<Option<Kind>>)
      ensures r.Thrown? <==> t == null
      ensures r.Thrown? ==> r.failure == NullDereference
      ensures t != null && t.iClass == iClass ==> r.Value? && r.value.Some? && r.value.value != Incomparable
      ensures t != null && t.iClass == iClass ==> (r == Value(Some(Sub)) <==> isSubtype)
      ensures t != null && t.iClass == iClass ==> (r == Value(Some(Equal)) <==> !isSubtype && !t.isSubtype)
      ensures t != null && t.iClass != iClass ==> r == Value(cmp(this, t))
    {
      if t == null then Thrown(NullDereference)
      else if t.iClass == iClass then
        if isSubtype then
          if t.isSubtype then Value(Some(Sub)) else Value(Some(Sub))
        else
          if t.isSubtype then Value(Some(Super)) else Value(Some(Equal))
      else
        Value(cmp(this, t))
    }

    /**
     * `isSubtypeOf(t)`: true of `this` itself; otherwise whether the
     * comparison is equal or below, false when the comparator has no answer.
     */
    function IsSubtypeOf(t: Type?, cmp: Comparator): (r: Result<bool>)
      ensures t == this ==> r == Value(true)
      ensures t == null ==> r == Thrown(NullDereference)
      ensures t != null && t != this ==>
                r == Value(CompareWith(t, cmp).value.Some? && CompareWith(t, cmp).value.value.IsLE())
    {
      if t == this then Value(true)
      else match CompareWith(t, cmp)
        case Thrown(e) => Thrown(e)
        case Value(k) => Value(k.Some? && k.value.IsLE())
    }

    /**
     * `glb(t)`: this type when it is equal or below `t`, `t` when above, the
     * object type when incomparable; a null `t` gives this type, and a null
     * comparison throws in the switch.
     */
    function Glb(t: Type?, cmp: Comparator, objectType: Type): (r: Result<Type>)
      ensures t == null ==> r == Value(this)
      ensures t != null ==> (r.Thrown? <==> CompareWith(t, cmp).value.None?)
      ensures t != null && CompareWith(t, cmp).value in {Some(Equal), Some(Sub)} ==> r == Value(this)
      ensures t != null && CompareWith(t, cmp).value == Some(Super) ==> r == Value(t)
      ensures t != null && CompareWith(t, cmp).value == Some(Incomparable) ==> r == Value(objectType)
      ensures r.Value? ==> r.value == this || r.value == t || r.value == objectType
    {
      if t == null then Value(this)
      else match CompareWith(t, cmp).value
        case None => Thrown(NullDereference)
        case Some(k) =>
          match k
          case Equal => Value(this)
          case Sub => Value(this)
          case Super => Value(t)
          case Incomparable => Value(objectType)
    }

    /** `lt(t)`: whether this type is strictly below `t`. */
    function Lt(t: Type?, cmp: Comparator): (r: Result<bool>)
      ensures t == null <==> r.Thrown?
      ensures r.Value? ==> (r.value <==> CompareWith(t, cmp).value == Some(Sub))
    {
      match CompareWith(t, cmp)
      case Thrown(e) => Thrown(e)
      case Value(k) => Value(k == Some(Sub))
    }

    /**
     * `min(t)`: the more specific of the two. Null, this type itself, an
     * unspecified `t` and a void `t` give this type; an unspecified this type
     * gives `t`; otherwise as `glb`.
     */
    function Min(t: Type?, cmp: Comparator, objectType: Type): (r: Result<Type>)
      ensures t == null || t == this || !t.IsSpecified() ==> r == Value(this)
      ensures t != null && t != this && t.IsSpecified() && !IsSpecified() ==> r == Value(t)
      ensures t != null && t != this && t.IsSpecified() && IsSpecified() && t.iClass == VoidClass ==>
                r == Value(this)
      ensures t != null && t != this && t.IsSpecified() && IsSpecified() && t.iClass != VoidClass ==>
                r == Glb(t, cmp, objectType)
      ensures r.Value? ==> r.value == this || r.value == t || r.value == objectType
    {
      if t == null || t == this then Value(this)
      else if !t.IsSpecified() then Value(this)
      else if !IsSpecified() then Value(t)
      else if t.iClass == VoidClass then Value(this)
      else match CompareWith(t, cmp).value
        case None => Thrown(NullDereference)
        case Some(k) =>
          match k
          case Equal => Value(this)
          case Sub => Value(this)
          case Super => Value(t)
          case Incomparable => Value(objectType)
    }

    /** `max(t)`: this type when above `t`, `t` otherwise. A null `t` or comparison throws. */
    function Max(t: Type?, cmp: Comparator): (r: Result<Type>)
      ensures r.Thrown? <==> t == null || CompareWith(t, cmp).value.None?
      ensures r.Value? ==> (r.value == this <==> CompareWith(t, cmp).value == Some(Super) || t == this)
      ensures r.Value? ==> r.value == this || r.value == t
    {
      match CompareWith(t, cmp)
      case Thrown(e) => Thrown(e)
      case Value(k) =>
        if k.None? then Thrown(NullDereference)
        else if k.value == Super then Value(this)
        else Value(t)
    }

    // ---------------------------
    // Flags
    // ---------------------------

    /** `plus(f)`: sets the flag in the type's link. */
    method Plus(f: Flag)
      modifies meta`flagMask, meta`flagsetBound
      ensures meta.flagMask == old(meta.flagMask) + {f.bit}
    {
      meta.Plus([f]);
      assert MaskOf([f]) == MaskOf([]) + {f.bit};
    }

    /** One rule of `initFlags` (all but the third and fifth): `plus(f)` when the rule applies. */
    method PlusIf(f: Flag, cond: bool, ghost m0: FlagMask, ghost mt: Metatype, ghost c: ClassTraits)
      requires f.bit < 20 && f.bit != ATOM.bit && f.bit != STRUCTURED.bit
      requires meta.flagMask == StageMask(m0, mt, c, f.bit)
      requires cond <==> Derives(f.bit, m0, mt, c)
      modifies meta`flagMask, meta`flagsetBound
      ensures meta.flagMask == StageMask(m0, mt, c, f.bit + 1)
    {
      StageNext(m0, mt, c, f.bit);
      if cond {
        Plus(f);
      }
    }

    /** The metatype's rules of `initFlags` (FUNCTION to STRUCTURED), counting the reasons not to clone. */
    method InitMetatypeFlags(mt: Metatype, c: ClassTraits, ghost m0: FlagMask) returns (dontClone: nat)
      requires meta.flagMask == m0
      modifies meta`flagMask, meta`flagsetBound
      ensures meta.flagMask == StageMask(m0, mt, c, ARRAY.bit)
      ensures dontClone > 0 <==> CloneBlocked(mt)
    {
      assert meta.flagMask == StageMask(m0, mt, c, 0);
      dontClone := 0;
      PlusIf(FUNCTION, c.isFunction, m0, mt, c);
      PlusIf(IMMUTABLE, mt.isImmutable, m0, mt, c);
      if mt.isImmutable { dontClone := dontClone + 1; }
      StageAtom(m0, mt, c);
      if mt.isAtom {
        Plus(ATOM);
        dontClone := dontClone + 1;
      }
      PlusIf(REFERENCE_VALUED, mt.isReference, m0, mt, c);
      StageStructured(m0, mt, c);
      if mt.structured {
        Plus(STRUCTURED);
        meta.Minus(ATOM);
      }
    }

    /** The implementation class's collection rules of `initFlags` (ARRAY to EOBJECT). */
    method InitCollectionFlags(mt: Metatype, c: ClassTraits, ghost m0: FlagMask)
      requires meta.flagMask == StageMask(m0, mt, c, ARRAY.bit)
      modifies meta`flagMask, meta`flagsetBound
      ensures meta.flagMask == StageMask(m0, mt, c, STRUCTURE.bit)
    {
      PlusIf(ARRAY, c.isArray, m0, mt, c);
      PlusIf(ECOLLECTION, c.isECollection, m0, mt, c);
      PlusIf(JCOLLECTION, c.isCollection && !ECOLLECTION.Test(meta.flagMask), m0, mt, c);
      PlusIf(LIST, c.isList, m0, mt, c);
      PlusIf(MAP, c.isMap, m0, mt, c);
      PlusIf(EOBJECT, c.isEObject, m0, mt, c);
    }

    /** The structure and graph rules of `initFlags` (STRUCTURE to COMPONENT), counting the reasons to clone. */
    method InitStructureFlags(mt: Metatype, c: ClassTraits, ghost m0: FlagMask) returns (clone: nat)
      requires meta.flagMask == StageMask(m0, mt, c, STRUCTURE.bit)
      modifies meta`flagMask, meta`flagsetBound
      ensures meta.flagMask == StageMask(m0, mt, c, INSTANTIABLE.bit)
      ensures clone > 0 <==> IsConcreteStructure(c)
    {
      clone := 0;
      PlusIf(STRUCTURE, c.isIStructure && !c.isInterface, m0, mt, c);
      if c.isIStructure && !c.isInterface { clone := clone + 1; }
      PlusIf(ENTITY, c.isEntity, m0, mt, c);
      PlusIf(GRAPH, c.isGraph, m0, mt, c);
      PlusIf(NODE, c.isNode, m0, mt, c);
      InitGraphFlags(mt, c, m0);
    }

    /** The graph-element rules of `initFlags` (CONNECTIVE to COMPONENT). */
    method InitGraphFlags(mt: Metatype, c: ClassTraits, ghost m0: FlagMask)
      requires meta.flagMask == StageMask(m0, mt, c, CONNECTIVE.bit)
      modifies meta`flagMask, meta`flagsetBound
      ensures meta.flagMask == StageMask(m0, mt, c, INSTANTIABLE.bit)
    {
      PlusIf(CONNECTIVE, mt.isConnective, m0, mt, c);
      PlusIf(GROUP, c.isGroup, m0, mt, c);
      PlusIf(COMPONENT, c.isComponent, m0, mt, c);
    }

    /**
     * `initFlags()`: derives the classification flags. Any changes nothing; a
     * CLONEABLE conflict aborts once every flag but the cloning ones is set.
     */
    method InitFlags(mt: Metatype, c: ClassTraits) returns (o: Outcome)
      modifies meta`flagMask, meta`flagsetBound
      ensures o == if CloneConflict(mt, c) then Fail(CloneableConflict) else Ok
      ensures o.Ok? ==> meta.flagMask == InitialFlags(old(meta.flagMask), mt, c)
      ensures o.Fail? ==> meta.flagMask == StageMask(old(meta.flagMask), mt, c, INSTANTIABLE.bit)
    {
      if mt.isAny {
        return Ok;
      }
      ghost var m0 := meta.flagMask;
      var dontClone := InitMetatypeFlags(mt, c, m0);
      InitCollectionFlags(mt, c, m0);
      var clone := InitStructureFlags(mt, c, m0);
      if dontClone > 0 {
        if clone > 0 {
          return Fail(CloneableConflict);
        }
        StageNext(m0, mt, c, INSTANTIABLE.bit);
        StageNext(m0, mt, c, CLONEABLE.bit);
      } else {
        if c.isCloneable { clone := clone + 1; }
        PlusIf(INSTANTIABLE, c.isInstantiable, m0, mt, c);
        if c.isInstantiable { clone := clone + 1; }
        PlusIf(CLONEABLE, clone > 0, m0, mt, c);
      }
      StageAll(m0, mt, c);
      return Ok;
    }

    // ---------------------------
    // Variants, extents and parameters
    // ---------------------------

    /**
     * `addVariant(subtype)`: a base type puts a non-base subtype at the head
     * of its variant chain; any other pairing fails the assertion unchanged.
     */
    method AddVariant(subtype: Type, ghost variants: seq<Type>) returns (o: Outcome)
      modifies this`variantChain, subtype`variantChain
      ensures !(isBaseType && !subtype.isBaseType) ==>
                o == Fail(AssertionViolated) && variantChain == old(variantChain)
                && subtype.variantChain == old(subtype.variantChain)
      ensures isBaseType && !subtype.isBaseType ==>
                o == Ok && variantChain == subtype && subtype.variantChain == old(variantChain)
      ensures isBaseType && !subtype.isBaseType && old(VariantChain(variantChain, variants))
              && subtype !in variants && this !in variants ==>
                VariantChain(variantChain, [subtype] + variants)
    {
      if !(isBaseType && !subtype.isBaseType) {
        return Fail(AssertionViolated);
      }
      subtype.variantChain := variantChain;
      variantChain := subtype;
      return Ok;
    }

    /**
     * `enclosingExtent()`: an entity type without an extent caches the first
     * extent bound along its structure-type ancestry, or the null extent when
     * there is none, so the search runs once. The null extent reads as null.
     */
    method EnclosingExtent(ghost walk: seq<Type>) returns (r: Option<ExtentRef>)
      requires StructureAncestry(supertype, walk)
      modifies this`extent
      ensures old(extent).Some? || !isEntityType ==> extent == old(extent)
      ensures old(extent).None? && isEntityType ==>
                extent == Some(match old(FirstBoundExtent(walk))
                               case Some(i) => old(walk[i].extent.value)
                               case None => NullExtent)
      ensures isEntityType ==> extent.Some?
      ensures r == if extent == Some(NullExtent) then None else extent
      ensures r != Some(NullExtent)
    {
      if extent.None? && isEntityType {
        var te: Option<ExtentRef> := None;
        var t := supertype;
        ghost var i := 0;
        while t != null && t.isStructureType
          invariant 0 <= i <= |walk|
          invariant i < |walk| ==> t == walk[i]
          invariant i == |walk| ==> t == null || !t.isStructureType
          invariant forall j :: 0 <= j < i ==> walk[j].extent.None?
          invariant extent.None?
          decreases |walk| - i
        {
          te := t.extent;
          if te.Some? {
            extent := te;
            break;
          }
          t := t.supertype;
          i := i + 1;
        }
        if extent.None? {
          extent := Some(NullExtent);
        }
      }
      r := if extent == Some(NullExtent) then None else extent;
    }

    /** Every cached parameter is keyed by its name and references this type. */
    ghost predicate ParametersValid()
      reads this
    {
      inboundParameters.Some? ==>
        forall n :: n in inboundParameters.value ==>
          inboundParameters.value[n].name == n && inboundParameters.value[n].owner == this
    }

    /**
     * `inboundParameter(name)`: the parameter named `name` referencing this
     * type, created on first request and the same object on every later one.
     */
    method InboundParameter(name: string) returns (p: TypeParameter)
      modifies this`inboundParameters
      ensures inboundParameters.Some? && name in inboundParameters.value && inboundParameters.value[name] == p
      ensures old(inboundParameters).Some? && name in old(inboundParameters).value ==>
                p == old(inboundParameters).value[name] && inboundParameters == old(inboundParameters)
      ensures !(old(inboundParameters).Some? && name in old(inboundParameters).value) ==>
                fresh(p) && p.name == name && p.owner == this
                && inboundParameters.value
                   == (if old(inboundParameters).Some? then old(inboundParameters).value else map[])[name := p]
      ensures old(ParametersValid()) ==> ParametersValid() && p.name == name && p.owner == this
    {
      if inboundParameters.None? {
        inboundParameters := Some(map[]);
      }
      var params := inboundParameters.value;
      if name in params {
        p := params[name];
      } else {
        p := new TypeParameter(name, this);
        inboundParameters := Some(params[name := p]);
      }
    }
  }

  // ---------------------------
  // Properties of the comparison
  // ---------------------------

  /**
   * Within one implementation class the comparison is each side's converse,
   * except for two subtypes, which both answer SUB.
   */
  lemma SameClassConverse(a: Type, b: Type, cmp: Comparator)
    requires a.iClass == b.iClass
    ensures !(a.isSubtype && b.isSubtype) ==>
              a.CompareWith(b, cmp).value == Some(Converse(b.CompareWith(a, cmp).value.value))
    ensures a.isSubtype && b.isSubtype ==>
              a.CompareWith(b, cmp) == b.CompareWith(a, cmp) == Value(Some(Sub))
  {
  }

  /** Two types of one class: `glb` is one of them and a subtype of both. */
  lemma GlbIsLowerBound(a: Type, b: Type, cmp: Comparator, objectType: Type)
    requires a.iClass == b.iClass
    ensures a.Glb(b, cmp, objectType).Value?
    ensures var g := a.Glb(b, cmp, objectType).value;
            (g == a || g == b) && g.IsSubtypeOf(a, cmp) == Value(true) && g.IsSubtypeOf(b, cmp) == Value(true)
  {
    var g := a.Glb(b, cmp, objectType).value;
    assert g.iClass == a.iClass;
  }

  /** Two types of one class: `max` is one of them and both are subtypes of it. */
  lemma MaxIsUpperBound(a: Type, b: Type, cmp: Comparator)
    requires a.iClass == b.iClass
    ensures a.Max(b, cmp).Value?
    ensures var m := a.Max(b, cmp).value;
            (m == a || m == b) && a.IsSubtypeOf(m, cmp) == Value(true) && b.IsSubtypeOf(m, cmp) == Value(true)
  {
    var m := a.Max(b, cmp).value;
    assert m.iClass == a.iClass;
  }

  /** The glb of a type and one of its supertypes is the type itself. */
  lemma GlbOfSupertype(a: Type, b: Type, cmp: Comparator, objectType: Type)
    requires a.IsSubtypeOf(b, cmp) == Value(true)
    ensures a.Glb(b, cmp, objectType) == Value(a)
  {
  }

  /** Being strictly below implies being a subtype. */
  lemma LtIsSubtype(a: Type, b: Type?, cmp: Comparator)
    requires a.Lt(b, cmp) == Value(true)
    ensures a.IsSubtypeOf(b, cmp) == Value(true)
  {
  }

  /** Within one class, when exactly one of the two is a subtype, `glb` is that one, whichever way round. */
  lemma GlbCommutes(a: Type, b: Type, cmp: Comparator, objectType: Type)
    requires a.iClass == b.iClass && a.isSubtype != b.isSubtype
    ensures a.Glb(b, cmp, objectType) == b.Glb(a, cmp, objectType)
    ensures a.Glb(b, cmp, objectType) == Value(if a.isSubtype then a else b)
  {
  }
}
