/** The foreign KSUID primitive (github.com/segmentio/ksuid), seen from
    outside. Its source is not part of this model, so a KSUID is an opaque
    20-byte value and its codec is a parameter; the behaviour the namespaced
    identifier relies on is stated as predicates over that parameter and
    taken as hypotheses by the lemmas that need it. */
module KsuidLib {
  import opened Wrappers
  import opened Octets

  /** Width of a KSUID in bytes. */
  const Length: nat := 20

  /** Width of a KSUID's fixed-length base62 text encoding. */
  const EncodedLength: nat := 27

  /** ksuid.KSUID, a [20]byte. */
  type Ksuid = b: Buffer | |b| == Length witness [0, 0, 0, 0, 0, 0, 0, 0, 0, 0, 0, 0, 0, 0, 0, 0, 0, 0, 0, 0]

  /** ksuid.Nil, the all-zero KSUID. */
  const Nil: Ksuid := [0, 0, 0, 0, 0, 0, 0, 0, 0, 0, 0, 0, 0, 0, 0, 0, 0, 0, 0, 0]

  /** ksuid.KSUID.IsNil: the value is the all-zero sentinel. */
  predicate IsNil(k: Ksuid) {
    k == Nil
  }

  /** An error value produced inside the KSUID library; it is passed on
      verbatim and never inspected. */
  datatype KsuidError = KsuidError(message: Buffer)

  /** The KSUID library's codec: ksuid.FromBytes, ksuid.Parse, and the base62
      text encoding written by ksuid.KSUID.Append and ksuid.KSUID.String. */
  datatype Codec = Codec(
    fromBytes: Buffer -> Result<Ksuid, KsuidError>,
    parse: Buffer -> Result<Ksuid, KsuidError>,
    format: Ksuid -> Buffer)

  /** ksuid.KSUID.Append: the text encoding appended to a buffer. */
  function Append(c: Codec, k: Ksuid, b: Buffer): (r: Buffer)
    ensures |r| == |b| + |c.format(k)|
    ensures r[..|b|] == b && r[|b|..] == c.format(k)
  {
    b + c.format(k)
  }

  /** ksuid.FromBytes accepts the 20 bytes of any KSUID and returns that KSUID. */
  ghost predicate AcceptsOwnBytes(c: Codec) {
    forall k: Ksuid :: c.fromBytes(k) == Success(k)
  }

  /** ksuid.FromBytes copies its input: whatever it accepts, it returns verbatim. */
  ghost predicate DecodesVerbatim(c: Codec) {
    forall b: Buffer :: c.fromBytes(b).Success? ==> c.fromBytes(b).value == b
  }

  /** ksuid.Parse inverts the text encoding. */
  ghost predicate StringRoundTrips(c: Codec) {
    forall k: Ksuid :: c.parse(c.format(k)) == Success(k)
  }

  /** The text encoding is always 27 bytes long. */
  ghost predicate FixedWidthFormat(c: Codec) {
    forall k: Ksuid :: |c.format(k)| == EncodedLength
  }

  /** Every behaviour of the library that the namespaced identifier relies on. */
  ghost predicate Lawful(c: Codec) {
    AcceptsOwnBytes(c) && DecodesVerbatim(c) && StringRoundTrips(c) && FixedWidthFormat(c)
  }

  // A deliberately simple stand-in codec, used only to show that the
  // hypotheses above can hold together.

  function SampleFromBytes(b: Buffer): Result<Ksuid, KsuidError> {
    if |b| == Length then Success(b) else Failure(KsuidError([]))
  }

  function SampleParse(s: Buffer): Result<Ksuid, KsuidError> {
    if |s| == EncodedLength then Success(s[..Length]) else Failure(KsuidError([]))
  }

  function SampleFormat(k: Ksuid): Buffer {
    k + [0x30, 0x30, 0x30, 0x30, 0x30, 0x30, 0x30]
  }

  /** The library hypotheses are jointly satisfiable, so lemmas assuming
      `Lawful` are not vacuous. */
  lemma LawsAreSatisfiable()
    ensures exists c: Codec :: Lawful(c)
  {
    var c := Codec(SampleFromBytes, SampleParse, SampleFormat);
    forall k: Ksuid
      ensures c.parse(c.format(k)) == Success(k)
    {
      assert c.format(k) == SampleFormat(k);
      assert SampleFormat(k)[..Length] == k;
    }
    assert Lawful(c);
  }
}
