/**
 * Bit algebra of a link's two masks: the decoration mask, whose bits cache the
 * presence of optional per-link state ("decorations") and a few role bits, and
 * the 64-bit flag mask of classification flags.
 */
module Masks {

  /** Bits of the decoration mask (a Java `int`). */
  type DecorationMask = bv32

  const MS_IS_POOLED: DecorationMask := 0x1
  const MS_IS_IN_USE: DecorationMask := 0x2
  const MS_IS_TEMPLATE: DecorationMask := 0x4
  const MS_IS_UNIQUIZING: DecorationMask := 0x8
  const MS_HAS_VERSION: DecorationMask := 0x10
  const MS_IN_LIFECYCLE_TRANSITION: DecorationMask := 0x20

  /** Whether all of `bits` are set in `m` (the `(m & bit) != 0` tests of the source). */
  predicate HasBit(m: DecorationMask, bit: DecorationMask) {
    m & bit != 0
  }

  /** `m` with the in-use bit set or cleared: no other bit changes. */
  function WithInUse(m: DecorationMask, on: bool): (r: DecorationMask)
    ensures HasBit(r, MS_IS_IN_USE) == on
    ensures r & !MS_IS_IN_USE == m & !MS_IS_IN_USE
    ensures HasBit(r, MS_IS_POOLED) == HasBit(m, MS_IS_POOLED)
  {
    if on then m | MS_IS_IN_USE else m & !MS_IS_IN_USE
  }

  /** `m` with the template bit set or cleared: no other bit changes. */
  function WithTemplate(m: DecorationMask, on: bool): (r: DecorationMask)
    ensures HasBit(r, MS_IS_TEMPLATE) == on
    ensures r & !MS_IS_TEMPLATE == m & !MS_IS_TEMPLATE
    ensures HasBit(r, MS_IS_POOLED) == HasBit(m, MS_IS_POOLED)
  {
    if on then m | MS_IS_TEMPLATE else m & !MS_IS_TEMPLATE
  }

  /** Positions of the 64 bits of the flag mask (a Java `long`). */
  type BitIndex = b: nat | b < 64

  /**
   * The flag mask, given as the set of positions of its one bits: `|` is union,
   * `& ~` is difference and a one-bit test is membership.
   */
  type FlagMask = set<BitIndex>

  /** A classification flag: the one bit its `mask` field holds. */
  datatype Flag = Flag(bit: BitIndex) {
    /** `Flag.test(mask)`: whether the flag's bit is set in `m`. */
    predicate Test(m: FlagMask) {
      bit in m
    }
  }

  /**
   * The classification flags a type's link carries. Each is one bit; the
   * positions are this model's choice (the flag table is not part of it).
   */
  const FUNCTION: Flag := Flag(0)
  const IMMUTABLE: Flag := Flag(1)
  const ATOM: Flag := Flag(2)
  const REFERENCE_VALUED: Flag := Flag(3)
  const STRUCTURED: Flag := Flag(4)
  const ARRAY: Flag := Flag(5)
  const ECOLLECTION: Flag := Flag(6)
  const JCOLLECTION: Flag := Flag(7)
  const LIST: Flag := Flag(8)
  const MAP: Flag := Flag(9)
  const EOBJECT: Flag := Flag(10)
  const STRUCTURE: Flag := Flag(11)
  const ENTITY: Flag := Flag(12)
  const GRAPH: Flag := Flag(13)
  const NODE: Flag := Flag(14)
  const CONNECTIVE: Flag := Flag(15)
  const GROUP: Flag := Flag(16)
  const COMPONENT: Flag := Flag(17)
  const INSTANTIABLE: Flag := Flag(18)
  const CLONEABLE: Flag := Flag(19)

  /** The bits of every flag in `fs`, or-ed together from left to right. */
  function MaskOf(fs: seq<Flag>): FlagMask {
    if fs == [] then {} else MaskOf(fs[..|fs| - 1]) + {fs[|fs| - 1].bit}
  }

  /** Whether every flag of `fs` is set in `m`. */
  predicate AllSet(fs: seq<Flag>, m: FlagMask) {
    forall i :: 0 <= i < |fs| ==> fs[i].Test(m)
  }

  /** The mask of `fs` holds exactly the bits of the flags of `fs`. */
  lemma {:induction false} MaskOfExactly(fs: seq<Flag>)
    ensures forall b: BitIndex :: b in MaskOf(fs) <==> exists i :: 0 <= i < |fs| && fs[i].bit == b
  {
    if fs != [] {
      var init := fs[..|fs| - 1];
      MaskOfExactly(init);
      forall b: BitIndex
        ensures b in MaskOf(fs) <==> exists i :: 0 <= i < |fs| && fs[i].bit == b
      {
        if b in MaskOf(init) {
          var i :| 0 <= i < |init| && init[i].bit == b;
          assert fs[i].bit == b;
        }
        if exists i :: 0 <= i < |fs| && fs[i].bit == b {
          var i :| 0 <= i < |fs| && fs[i].bit == b;
          if i < |fs| - 1 {
            assert init[i].bit == b;
          }
        }
      }
    }
  }

  /** Or-ing in the mask of `fs` sets every flag of `fs` and none other, and keeps the rest. */
  lemma PlusSetsExactly(fs: seq<Flag>, m: FlagMask, g: Flag)
    ensures AllSet(fs, m + MaskOf(fs))
    ensures g.Test(m + MaskOf(fs)) <==> g.Test(m) || exists i :: 0 <= i < |fs| && fs[i] == g
  {
    MaskOfExactly(fs);
  }
}
