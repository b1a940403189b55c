/** The JSON adapter of ID: MarshalJSON, and the part of UnmarshalJSON that
    runs once encoding/json has decoded the JSON text into a string. */
module Json {
  import opened Wrappers
  import opened Octets
  import opened KsuidLib
  import opened Layout
  import opened Ids

  /** The double quote byte. */
  const Quote: Byte := 0x22

  /** ID.MarshalJSON: the string form between double quotes. It never
      returns an error, so only the bytes are modelled. No escaping is done. */
  function MarshalJSON(c: Codec, i: Id): (r: Buffer)
    ensures |r| == |String(c, i)| + 2
    ensures r[0] == Quote && r[|r| - 1] == Quote
    ensures r[1..|r| - 1] == String(c, i)
  {
    Ids.Append(c, i, [Quote]) + [Quote]
  }

  /** UnmarshalJSON after the JSON string `s` has been decoded: returns the
      receiver's new value and the error. The empty string sets the receiver
      to Nil; any other string is parsed, and on a Parse error the receiver
      is left as it was and the error is returned unchanged. JSON null
      leaves the decoded string empty and so takes the first branch. */
  function UnmarshalString(c: Codec, receiver: Id, s: Buffer): (r: Returned<Id>)
    ensures s == [] ==> r == Returned(Ids.Nil, None)
    ensures s != [] ==> r.err == Parse(c, s).err
    ensures s != [] && r.Ok() ==> r.value == Parse(c, s).value
    ensures !r.Ok() ==> r.value == receiver
  {
    if s == [] then Returned(Ids.Nil, None)
    else
      var p := Parse(c, s);
      if !p.Ok() then Returned(receiver, p.err)
      else Returned(p.value, None)
  }

  /** With a fixed-width KSUID encoding, MarshalJSON writes 32 bytes. */
  lemma MarshalLength(c: Codec, i: Id)
    requires FixedWidthFormat(c)
    ensures |MarshalJSON(c, i)| == StringEncodedLength + 2
  {
    StringShape(c, i);
  }

  /** Any ID, Nil included, survives MarshalJSON followed by UnmarshalJSON
      of the text between the quotes, whatever the receiver held before. */
  lemma JsonRoundTrip(c: Codec, i: Id, receiver: Id)
    requires StringRoundTrips(c) && FixedWidthFormat(c)
    ensures var m := MarshalJSON(c, i);
      UnmarshalString(c, receiver, m[1..|m| - 1]) == Returned(i, None)
  {
    var m := MarshalJSON(c, i);
    assert m[1..|m| - 1] == String(c, i);
    StringShape(c, i);
    ParseRoundTrip(c, i);
  }

  /** A decoded string whose length is neither 27 nor 30 (such as "blah")
      gives errStringSize and leaves the receiver unchanged. */
  lemma UnmarshalWrongLength(c: Codec, receiver: Id, s: Buffer)
    requires s != [] && |s| != BareStringLength && |s| != StringEncodedLength
    ensures UnmarshalString(c, receiver, s) == Returned(receiver, Some(StringSize))
  {
  }
}
