/** ID: a Namespace followed by a KSUID, 23 bytes in all, with its binary
    and text codecs, equality and nil test. */
module Ids {
  import opened Wrappers
  import opened Octets
  import opened KsuidLib
  import opened Layout
  import N = Namespaces

  /** ID. Bytes [0, 3) hold the namespace, bytes [3, 23) the KSUID. The
      accessors ID.Namespace and ID.KSUID are the fields `ns` and `ksuid`. */
  datatype Id = Id(ns: N.Namespace, ksuid: Ksuid)

  /** ID{}, returned alongside every error: its namespace is {0, 0, 0}. */
  const ZeroId: Id := Id(N.Zero, KsuidLib.Nil)

  /** Nil: the Unknown namespace with the all-zero KSUID. */
  const Nil: Id := Id(N.Unknown, KsuidLib.Nil)

  /** FromBytes. A 23-byte buffer is split at offset 3: the first 3 bytes
      become the namespace verbatim and the rest is decoded by the KSUID
      library. Any other buffer is handed whole to the KSUID library, with
      no length check of its own, and gets the Unknown namespace. Errors
      are the library's, passed on with ID{}. */
  function FromBytes(c: Codec, b: Buffer): (r: Returned<Id>)
    ensures |b| == ByteLength ==>
      (r.Ok() <==> c.fromBytes(b[NsLength..]).Success?)
    ensures |b| == ByteLength && r.Ok() ==>
      N.Bytes(r.value.ns) == b[..NsLength] && c.fromBytes(b[NsLength..]) == Success(r.value.ksuid)
    ensures |b| != ByteLength ==> (r.Ok() <==> c.fromBytes(b).Success?)
    ensures |b| != ByteLength && r.Ok() ==>
      r.value.ns == N.Unknown && c.fromBytes(b) == Success(r.value.ksuid)
    ensures !r.Ok() ==>
      r.value == ZeroId
      && r.err.value.Foreign?
      && c.fromBytes(if |b| == ByteLength then b[NsLength..] else b) == Failure(r.err.value.cause)
  {
    if |b| == ByteLength then
      match c.fromBytes(b[NsLength..])
      case Failure(e) => Returned(ZeroId, Some(Foreign(e)))
      case Success(v) => Returned(Id(N.Namespace(b[..NsLength]), v), None)
    else
      match c.fromBytes(b)
      case Failure(e) => Returned(ZeroId, Some(Foreign(e)))
      case Success(v) => Returned(Id(N.Unknown, v), None)
  }

  /** Parse. A 27-byte string is a bare KSUID and gets the Unknown
      namespace; a 30-byte string has its first 3 bytes taken as the
      namespace and the remaining 27 parsed by the KSUID library; every
      other length is errStringSize. Errors come with ID{}. */
  function Parse(c: Codec, s: Buffer): (r: Returned<Id>)
    ensures |s| != BareStringLength && |s| != StringEncodedLength ==>
      r == Returned(ZeroId, Some(StringSize))
    ensures |s| == BareStringLength ==> (r.Ok() <==> c.parse(s).Success?)
    ensures |s| == BareStringLength && r.Ok() ==>
      r.value.ns == N.Unknown && c.parse(s) == Success(r.value.ksuid)
    ensures |s| == StringEncodedLength ==> (r.Ok() <==> c.parse(s[NsLength..]).Success?)
    ensures |s| == StringEncodedLength && r.Ok() ==>
      N.String(r.value.ns) == s[..NsLength] && c.parse(s[NsLength..]) == Success(r.value.ksuid)
    ensures !r.Ok() ==> r.value == ZeroId && r.err != Some(NamespaceSize)
    ensures !r.Ok() && (|s| == BareStringLength || |s| == StringEncodedLength) ==>
      r.err.value.Foreign?
      && c.parse(if |s| == BareStringLength then s else s[NsLength..]) == Failure(r.err.value.cause)
  {
    if |s| == BareStringLength then
      match c.parse(s)
      case Failure(e) => Returned(ZeroId, Some(Foreign(e)))
      case Success(v) => Returned(Id(N.Unknown, v), None)
    else if |s| != StringEncodedLength then
      Returned(ZeroId, Some(StringSize))
    else
      var ns := N.NewNamespace(s[..NsLength]);
      if !ns.Ok() then Returned(ZeroId, ns.err)
      else
        match c.parse(s[NsLength..])
        case Failure(e) => Returned(ZeroId, Some(Foreign(e)))
        case Success(v) => Returned(Id(ns.value, v), None)
  }

  /** ID.Append: the namespace bytes and then the KSUID's TEXT encoding,
      after the buffer's contents; the result is the buffer extended by the
      ID's string form. */
  function Append(c: Codec, i: Id, b: Buffer): (r: Buffer)
    ensures r == b + String(c, i)
  {
    KsuidLib.Append(c, i.ksuid, N.Append(i.ns, b))
  }

  /** ID.String: the namespace string followed by the KSUID's text encoding. */
  function String(c: Codec, i: Id): (r: Buffer)
    ensures |r| == NsLength + |c.format(i.ksuid)|
    ensures r[..NsLength] == N.String(i.ns)
    ensures r[NsLength..] == c.format(i.ksuid)
  {
    KsuidLib.Append(c, i.ksuid, N.Append(i.ns, []))
  }

  /** ID.Bytes: 23 bytes, the namespace at [0, 3) and the raw KSUID at [3, 23). */
  function Bytes(i: Id): (r: Buffer)
    ensures |r| == ByteLength
    ensures r[..NsLength] == N.Bytes(i.ns)
    ensures r[NsLength..] == i.ksuid
  {
    N.Append(i.ns, []) + i.ksuid
  }

  /** ID.Equal: both the namespace and the KSUID bytes match. */
  function Equal(i: Id, that: Id): (r: bool)
    ensures r <==> i.ns == that.ns && i.ksuid == that.ksuid
  {
    N.Equal(i.ns, N.NamespaceValue(that.ns)) && i.ksuid == that.ksuid
  }

  /** ID.IsNil: the namespace is Unknown and the KSUID is all zero. */
  function IsNil(i: Id): (r: bool)
    ensures r <==> i == Nil
  {
    N.Equal(i.ns, N.NamespaceValue(N.Unknown)) && KsuidLib.IsNil(i.ksuid)
  }

  /** With a fixed-width KSUID encoding the string form is 30 bytes long and
      starts with the namespace string. */
  lemma StringShape(c: Codec, i: Id)
    requires FixedWidthFormat(c)
    ensures |String(c, i)| == StringEncodedLength
    ensures String(c, i)[..NsLength] == N.String(i.ns)
  {
  }

  /** ID.Append writes the string encoding, not the binary one: into an
      empty buffer it produces 30 bytes where ID.Bytes produces 23. */
  lemma AppendIsNotBytes(c: Codec, i: Id)
    requires FixedWidthFormat(c)
    ensures Append(c, i, []) == String(c, i)
    ensures |Append(c, i, [])| == StringEncodedLength != |Bytes(i)|
  {
  }

  /** The binary form determines the ID. */
  lemma BytesInjective(i: Id, j: Id)
    ensures Bytes(i) == Bytes(j) <==> i == j
  {
    if Bytes(i) == Bytes(j) {
      assert i.ns.raw == Bytes(i)[..NsLength] == Bytes(j)[..NsLength] == j.ns.raw;
      assert i.ksuid == Bytes(i)[NsLength..] == Bytes(j)[NsLength..] == j.ksuid;
    }
  }

  /** ID.Equal holds exactly when the binary forms agree. */
  lemma EqualIffSameBytes(i: Id, j: Id)
    ensures Equal(i, j) <==> Bytes(i) == Bytes(j)
  {
    BytesInjective(i, j);
  }

  /** An ID survives a trip through its binary form, given that the KSUID
      library accepts its own 20 bytes. */
  lemma FromBytesRoundTrip(c: Codec, i: Id)
    requires AcceptsOwnBytes(c)
    ensures FromBytes(c, Bytes(i)) == Returned(i, None)
  {
    var b := Bytes(i);
    assert b[NsLength..] == i.ksuid;
    assert c.fromBytes(i.ksuid) == Success(i.ksuid);
    assert N.Namespace(b[..NsLength]) == i.ns;
  }

  /** Conversely, a 23-byte buffer that decodes is the binary form of the
      ID it decodes to, given that the KSUID library decodes verbatim. */
  lemma BytesOfFromBytes(c: Codec, b: Buffer)
    requires DecodesVerbatim(c)
    requires |b| == ByteLength && FromBytes(c, b).Ok()
    ensures Bytes(FromBytes(c, b).value) == b
  {
    var i := FromBytes(c, b).value;
    assert Bytes(i) == Bytes(i)[..NsLength] + Bytes(i)[NsLength..];
    assert b == b[..NsLength] + b[NsLength..];
  }

  /** A bare KSUID's 20 bytes decode to that KSUID in the Unknown namespace. */
  lemma FromBareBytes(c: Codec, k: Ksuid)
    requires AcceptsOwnBytes(c)
    ensures FromBytes(c, k) == Returned(Id(N.Unknown, k), None)
  {
    assert c.fromBytes(k) == Success(k);
  }

  /** An ID survives a trip through its string form, given the KSUID text
      codec round-trips with a fixed width. */
  lemma ParseRoundTrip(c: Codec, i: Id)
    requires StringRoundTrips(c) && FixedWidthFormat(c)
    ensures Parse(c, String(c, i)) == Returned(i, None)
  {
    var s := String(c, i);
    assert |c.format(i.ksuid)| == EncodedLength;
    assert s[NsLength..] == c.format(i.ksuid);
    assert c.parse(c.format(i.ksuid)) == Success(i.ksuid);
    assert N.NewNamespace(s[..NsLength]) == Returned(i.ns, None);
  }

  /** A bare KSUID's 27-byte text parses to that KSUID in the Unknown namespace. */
  lemma ParseBare(c: Codec, k: Ksuid)
    requires StringRoundTrips(c) && FixedWidthFormat(c)
    ensures Parse(c, c.format(k)) == Returned(Id(N.Unknown, k), None)
  {
    assert |c.format(k)| == EncodedLength;
    assert c.parse(c.format(k)) == Success(k);
  }

  /** Nil is nil; ID{} is not, because its namespace is {0, 0, 0} rather
      than Unknown. IDs in different namespaces are never equal. */
  lemma NilAndZero(k: Ksuid, n: N.Namespace, m: N.Namespace)
    ensures IsNil(Nil) && !IsNil(ZeroId)
    ensures n != m ==> !Equal(Id(n, k), Id(m, k))
  {
    assert N.Bytes(N.Unknown) == N.UnknownTag;
  }
}
