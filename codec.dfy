/**
 * The reference form of an entity: the tokens `encodeReference` hands to the
 * tunnel encoder, and a decoder that reads them back.
 */
module Codec {
  import opened Outcomes
  import opened Identity

  /** One call on the encoder. `C` is the type of a site entity. */
  datatype Token<C> =
    | ContainerToken(site: C)                     // encodeContainer(site)
    | TypeToken(typeName: Option<string>)         // encodeType(entityType)
    | ResidenceToken(residence: Option<Residence>) // encodeResidence(residence)
    | IntToken(bits: bv32)                        // writeInteger(decorationMask)
    | LongToken(n: int)                           // encodeLong(n)
    | GenericToken(id: Option<Key>)               // encode(primaryId)

  /** What a reference to a non-site entity carries. */
  datatype Reference = Reference(
    typeName: Option<string>,
    residence: Option<Residence>,
    mask: bv32,
    primaryId: Option<Key>)

  /** Java's `long.intValue()`: the low 32 bits, read as a signed `int`. */
  function IntValue(n: int): (r: int)
    ensures IsInt(r)
    ensures IsInt(n) ==> r == n
    ensures (r - n) % 0x1_0000_0000 == 0
  {
    var low := n % 0x1_0000_0000;
    if low < INT_LIMIT then low else low - 0x1_0000_0000
  }

  /** The primary-id token exactly as written: a `Long` goes through `intValue()`. */
  function PrimaryIdTokenAsWritten<C>(id: Option<Key>): Token<C> {
    if id.Some? && id.value.LongKey? then LongToken(IntValue(id.value.n)) else GenericToken(id)
  }

  /**
   * The primary-id token as the compact encoding is meant to work: narrow only
   * when the `Long` fits in an `int`, generic otherwise.
   */
  function PrimaryIdToken<C>(id: Option<Key>): Token<C> {
    if id.Some? && id.value.LongKey? && IsInt(id.value.n) then LongToken(id.value.n) else GenericToken(id)
  }

  /** The tokens of a reference to a non-site entity, with the given primary-id encoding. */
  function ReferenceTokens<C>(ref: Reference, asWritten: bool): (ts: seq<Token<C>>)
    ensures |ts| == 4 && ts[0].TypeToken? && ts[1].ResidenceToken? && ts[2].IntToken?
    ensures ts[3].LongToken? || ts[3].GenericToken?
  {
    [TypeToken(ref.typeName), ResidenceToken(ref.residence), IntToken(ref.mask),
     if asWritten then PrimaryIdTokenAsWritten(ref.primaryId) else PrimaryIdToken(ref.primaryId)]
  }

  /** Reads back a reference to a non-site entity; a `LongToken` decodes to a `Long` key. */
  function DecodeReference<C>(ts: seq<Token<C>>): Option<Reference> {
    if |ts| == 4 && ts[0].TypeToken? && ts[1].ResidenceToken? && ts[2].IntToken? then
      match ts[3]
      case LongToken(n) => Some(Reference(ts[0].typeName, ts[1].residence, ts[2].bits, Some(LongKey(n))))
      case GenericToken(id) => Some(Reference(ts[0].typeName, ts[1].residence, ts[2].bits, id))
      case _ => None
    else
      None
  }

  /** Decoding the intended encoding gives back every reference. */
  lemma RoundTrip<C>(ref: Reference)
    ensures DecodeReference(ReferenceTokens<C>(ref, false)) == Some(ref)
  {
  }

  /** Whether `id` is a `Long` outside `int` range, the ids `intValue()` changes. */
  predicate LongBeyondInt(id: Option<Key>) {
    id.Some? && id.value.LongKey? && !IsInt(id.value.n)
  }

  /** The primary id the encoding as written carries: a `Long` narrowed to an `int`, any other id unchanged. */
  function Narrowed(id: Option<Key>): (r: Option<Key>)
    ensures r == id <==> !LongBeyondInt(id)
  {
    if id.Some? && id.value.LongKey? then Some(LongKey(IntValue(id.value.n))) else id
  }

  /** Decoding the encoding as written gives back the reference with its primary id narrowed. */
  lemma {:induction false} DecodeAsWritten<C>(ref: Reference)
    ensures DecodeReference(ReferenceTokens<C>(ref, true)) == Some(ref.(primaryId := Narrowed(ref.primaryId)))
  {
  }

  /** The encoding as written gives back the reference exactly when its id is not a `Long` beyond `int` range. */
  lemma {:induction false} RoundTripAsWrittenExactly<C>(ref: Reference)
    ensures DecodeReference(ReferenceTokens<C>(ref, true)) == Some(ref) <==> !LongBeyondInt(ref.primaryId)
  {
    DecodeAsWritten<C>(ref);
    if DecodeReference(ReferenceTokens<C>(ref, true)) == Some(ref) {
      assert ref.(primaryId := Narrowed(ref.primaryId)).primaryId == ref.primaryId;
    }
  }

  /** The encoding as written round-trips whenever the primary id is not a `Long` beyond `int` range. */
  lemma RoundTripAsWritten<C>(ref: Reference)
    requires !LongBeyondInt(ref.primaryId)
    ensures DecodeReference(ReferenceTokens<C>(ref, true)) == Some(ref)
  {
    DecodeAsWritten<C>(ref);
  }

  /**
   * The encoding as written loses a `Long` primary id beyond `int` range: ids
   * 2^32 and 0 encode alike, so the first one decodes as 0.
   */
  lemma TruncationLosesLongIds<C>(t: Option<string>, r: Option<Residence>, mask: bv32)
    ensures var big := Reference(t, r, mask, Some(LongKey(0x1_0000_0000)));
            var zero := Reference(t, r, mask, Some(LongKey(0)));
            ReferenceTokens<C>(big, true) == ReferenceTokens<C>(zero, true)
            && DecodeReference(ReferenceTokens<C>(big, true)) == Some(zero) != Some(big)
  {
  }

  /** The intended encoding tells apart any two references, whatever their primary ids. */
  lemma {:induction false} EncodingInjective<C>(a: Reference, b: Reference)
    requires ReferenceTokens<C>(a, false) == ReferenceTokens<C>(b, false)
    ensures a == b
  {
    RoundTrip<C>(a);
    RoundTrip<C>(b);
  }
}
