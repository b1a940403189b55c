/** Namespace: the 3-byte tag in front of every ID, with its strict
    constructor, its byte and string views and its comparison against
    values of several Go types. */
module Namespaces {
  import opened Wrappers
  import opened Octets
  import opened Layout

  /** A Go [3]byte. */
  type Array3 = b: Buffer | |b| == 3 witness [0, 0, 0]

  /** Namespace, a named [3]byte. No character set is imposed. */
  datatype Namespace = Namespace(raw: Array3)

  /** Namespace{}, the zero value returned alongside errNamespaceSize. */
  const Zero: Namespace := Namespace([0, 0, 0])

  /** The bytes of "unk". */
  const UnknownTag: Buffer := [0x75, 0x6E, 0x6B]

  /** The namespace applied to IDs built from a bare KSUID. */
  const Unknown: Namespace := MustNamespace(UnknownTag)

  /** NewNamespace: succeeds exactly on 3-byte input, which becomes the
      namespace verbatim; any other length yields errNamespaceSize and the
      zero namespace. */
  function NewNamespace(v: Buffer): (r: Returned<Namespace>)
    ensures r.Ok() <==> |v| == NsLength
    ensures r.Ok() ==> Bytes(r.value) == v
    ensures !r.Ok() ==> r == Returned(Zero, Some(NamespaceSize))
  {
    if |v| != NsLength then Returned(Namespace([0, 0, 0]), Some(NamespaceSize))
    else Returned(Namespace(v), None)
  }

  /** MustNamespace, restricted to the input on which it does not panic. */
  function MustNamespace(v: Buffer): (n: Namespace)
    requires |v| == NsLength
    ensures Bytes(n) == v
  {
    NewNamespace(v).value
  }

  /** Namespace.Append: the 3 raw bytes added after the buffer's contents. */
  function Append(n: Namespace, b: Buffer): (r: Buffer)
    ensures |r| == |b| + NsLength
    ensures r[..|b|] == b && r[|b|..] == n.raw
  {
    b + n.raw
  }

  /** Namespace.Bytes: the raw tag. */
  function Bytes(n: Namespace): (r: Buffer)
    ensures r == n.raw
  {
    Append(n, [])
  }

  /** Namespace.String: the raw tag reinterpreted as a string, unescaped. */
  function String(n: Namespace): (r: Buffer)
    ensures r == Bytes(n)
  {
    Append(n, [])
  }

  /** The dynamic value given to Namespace.Equal's interface{} parameter:
      one case per type it recognises, and every other type. */
  datatype Operand =
    | NamespaceValue(ns: Namespace)
    | ArrayValue(arr: Array3)
    | SliceValue(slice: Buffer)
    | StringValue(str: Buffer)
    | OtherValue

  /** Namespace.Equal: byte comparison for the four recognised types, false
      (and never an error) for anything else. */
  function Equal(n: Namespace, that: Operand): (r: bool)
    ensures that.NamespaceValue? ==> (r <==> that.ns == n)
    ensures that.ArrayValue? ==> (r <==> that.arr == Bytes(n))
    ensures that.SliceValue? ==> (r <==> NewNamespace(that.slice) == Returned(n, None))
    ensures that.StringValue? ==> (r <==> NewNamespace(that.str) == Returned(n, None))
    ensures that.OtherValue? ==> !r
  {
    match that
    case NamespaceValue(v) => n.raw == v.raw
    case ArrayValue(v) => n.raw == v
    case SliceValue(v) => n.raw == v
    case StringValue(v) => n.raw == v
    case OtherValue => false
  }

  /** The byte and string views of a namespace construct that same
      namespace again, and it compares equal to each of its views. */
  lemma ViewsRoundTrip(n: Namespace)
    ensures NewNamespace(Bytes(n)) == Returned(n, None)
    ensures NewNamespace(String(n)) == Returned(n, None)
    ensures Equal(n, NamespaceValue(n)) && Equal(n, ArrayValue(n.raw))
    ensures Equal(n, SliceValue(Bytes(n))) && Equal(n, StringValue(String(n)))
  {
  }

  /** The cases of Namespace.Equal exercised on the namespace "bla": itself,
      its byte and string views are equal; "eek", the array "abc" and a
      non-byte value are not. */
  lemma EqualExamples()
    ensures var bla := MustNamespace([0x62, 0x6C, 0x61]);
      && Equal(bla, NamespaceValue(bla))
      && !Equal(bla, NamespaceValue(MustNamespace([0x65, 0x65, 0x6B])))
      && !Equal(bla, ArrayValue([0x61, 0x62, 0x63]))
      && Equal(bla, SliceValue(Bytes(bla)))
      && Equal(bla, StringValue(String(bla)))
      && !Equal(bla, OtherValue)
  {
  }

  /** Namespace.Equal is an equivalence between namespaces. */
  lemma EqualIsEquivalence(a: Namespace, b: Namespace, c: Namespace)
    ensures Equal(a, NamespaceValue(a))
    ensures Equal(a, NamespaceValue(b)) <==> Equal(b, NamespaceValue(a))
    ensures Equal(a, NamespaceValue(b)) && Equal(b, NamespaceValue(c)) ==> Equal(a, NamespaceValue(c))
  {
  }
}
