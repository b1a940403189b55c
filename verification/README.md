# ksuidx in Dafny

A model of the Go package `ksuidx`. The package defines a namespaced, sortable identifier `ID`. An `ID` is a 3-byte `Namespace` tag followed by a 20-byte KSUID, 23 bytes in all. The model covers:

- the namespace constructor and its views;
- `Namespace.Equal`, which compares against values of several Go types;
- the binary codec (`FromBytes`, `ID.Bytes`);
- the text codec (`Parse`, `ID.Append`, `ID.String`);
- `ID.Equal` and `ID.IsNil`;
- the JSON adapter, from the decoded string onwards.

Modules, one per component:

- `Octets` (`octets.dfy`): `Byte` and `Buffer`, the byte sequences that stand for Go's `[]byte` and `string`.
- `Wrappers` (`wrappers.dfy`): `Option` and `Result`.
- `KsuidLib` (`ksuid.dfy`): the foreign KSUID library as seen from outside.
  - A KSUID is an opaque 20-byte value. `Nil` is its all-zero value.
  - The library's codec is a `Codec` value passed as a parameter. It holds `fromBytes`, `parse` and the text encoding `format`.
  - The behaviour the package relies on is stated as predicates: `AcceptsOwnBytes`, `DecodesVerbatim`, `StringRoundTrips` and `FixedWidthFormat`. The round-trip lemmas take them as hypotheses.
  - `LawsAreSatisfiable` exhibits a codec meeting all four, so those hypotheses are not contradictory.
- `Layout` (`layout.dfy`): the constants 23, 20, 3, 30 and 27, and the error values.
  - `NamespaceSize` is `errNamespaceSize`, `StringSize` is `errStringSize`, and `Foreign(e)` is a KSUID library error passed on unchanged.
  - Go's `(value, error)` return is `Returned(value, err)`. This keeps the `ID{}` returned on every error path visible.
- `Namespaces` (`namespace.dfy`): `Namespace`, `NewNamespace`, `MustNamespace`, `Append`, `Bytes`, `String`, `Equal`, and `Unknown` (`"unk"`).
  - The `interface{}` argument of `Equal` is an `Operand`. It has one case for each type the Go type switch recognises, and `OtherValue` for every other type.
- `Ids` (`id.dfy`): `Id`, the values `ZeroId` (Go's `ID{}`, namespace `{0,0,0}`) and `Nil` (namespace `Unknown`), and `FromBytes`, `Parse`, `Append`, `String`, `Bytes`, `Equal` and `IsNil`.
  - The accessors `ID.Namespace` and `ID.KSUID` are the datatype fields `ns` and `ksuid`.
- `Json` (`json.dfy`): `MarshalJSON`, and `UnmarshalString`, which is `UnmarshalJSON` after the JSON text has been decoded to a string. It returns the receiver's new value together with the error.

Go strings and byte slices are both `Octets.Buffer`, a `seq<bv8>`. Go's `len` and slicing on strings count bytes.

`ID.Append` writes the namespace followed by the KSUID's 27-character text encoding. That is not the 23-byte binary form that `ID.Bytes` gives. `Ids.AppendIsNotBytes` states the difference. The JSON round trip (`Json.JsonRoundTrip`) holds for every identifier, `Nil` included.

## Model

| member | source | states |
|---|---|---|
| Namespaces.NewNamespace | ksuidx.go:205-215 | succeeds exactly when the input has 3 bytes, and then the namespace's bytes are the input; any other length gives `errNamespaceSize` with the zero namespace |
| Namespaces.MustNamespace | ksuidx.go:217-225 | on 3-byte input (the only input that does not panic) the namespace's bytes are the input |
| Namespaces.Append | ksuidx.go:227-230 | the buffer is kept as a prefix and followed by exactly the 3 namespace bytes |
| Namespaces.Bytes | ksuidx.go:237-241 | yields exactly the 3 raw namespace bytes |
| Namespaces.String | ksuidx.go:259-263 | yields the same 3 bytes as `Bytes`, unescaped |
| Namespaces.Equal | ksuidx.go:243-257 | against a Namespace: value equality; against a `[3]byte`: equal to the raw bytes; against a `[]byte` or string: true exactly when that input would construct this namespace; any other type: false |
| Namespaces.ViewsRoundTrip | ksuidx_test.go:77-125 | the byte and string views reconstruct the namespace, and it compares equal to itself, its raw array and both views |
| Namespaces.EqualExamples | ksuidx_test.go:77-117 | the test table: "bla" equals itself and its views, and differs from "eek", the array "abc" and an integer |
| Namespaces.EqualIsEquivalence | ksuidx.go:243-247 | equality between namespaces is reflexive, symmetric and transitive |
| Ids.FromBytes | ksuidx.go:42-66 | a 23-byte buffer gives namespace bytes [0,3) verbatim and the KSUID decoded from [3,23); any other length delegates the whole buffer to the KSUID decoder and gives namespace Unknown; an error is always the decoder's own, returned with `ID{}` |
| Ids.Parse | ksuidx.go:68-97 | length 27 gives namespace Unknown and the parsed KSUID; length 30 gives namespace [0,3) and the KSUID parsed from [3,30); any other length gives `errStringSize`; the namespace step never fails; KSUID parse errors pass through unchanged with `ID{}` |
| Ids.Append | ksuidx.go:126-131 | appends the ID's string form (not its binary form) to the buffer |
| Ids.String | ksuidx.go:170-174 | the namespace string followed by the KSUID's text encoding |
| Ids.Bytes | ksuidx.go:133-139 | 23 bytes: the namespace bytes at [0,3) and the raw KSUID at [3,23) |
| Ids.Equal | ksuidx.go:141-144 | true exactly when both the namespace and the KSUID match |
| Ids.IsNil | ksuidx.go:146-149 | true exactly for `Nil`, namespace Unknown with the all-zero KSUID |
| Ids.StringShape | ksuidx_test.go:14-20 | with a 27-byte KSUID encoding the string form is 30 bytes and starts with the namespace string |
| Ids.AppendIsNotBytes | ksuidx.go:126-139 | `Append` into an empty buffer is the string form, 30 bytes, where `Bytes` gives 23 |
| Ids.BytesInjective | ksuidx.go:33-40 | two IDs have the same 23-byte form exactly when they are the same ID |
| Ids.EqualIffSameBytes | ksuidx.go:141-144 | `Equal` holds exactly when the binary forms agree |
| Ids.FromBytesRoundTrip | ksuidx_test.go:34-45 | `FromBytes(id.Bytes())` returns `id` without error, given that the KSUID decoder accepts its own 20 bytes |
| Ids.BytesOfFromBytes | ksuidx.go:45-56 | a 23-byte buffer that decodes is the binary form of the ID it decodes to, given that the KSUID decoder copies its input |
| Ids.FromBareBytes | ksuidx_test.go:22-32 | a bare KSUID's 20 bytes decode to that KSUID in the Unknown namespace |
| Ids.ParseRoundTrip | ksuidx_test.go:65-75 | `Parse(id.String())` returns `id` without error, given that the KSUID text codec round-trips with 27-byte output |
| Ids.ParseBare | ksuidx.go:70-78 | a bare KSUID's 27-byte text parses to that KSUID in the Unknown namespace |
| Ids.NilAndZero | ksuidx.go:12-19 | `Nil` is nil but `ID{}` is not; IDs that differ only in namespace are not equal |
| Json.MarshalJSON | ksuidx.go:151-158 | the string form between two double quotes, unescaped |
| Json.UnmarshalString | ksuidx.go:181-200 | the empty string sets the receiver to `Nil`; otherwise the result and error are `Parse`'s, and on error the receiver keeps its old value |
| Json.MarshalLength | ksuidx.go:152-158 | with a 27-byte KSUID encoding the JSON form has 32 bytes |
| Json.JsonRoundTrip | ksuidx_test.go:136-154 | unmarshalling the text between MarshalJSON's quotes restores the ID, whatever the receiver held |
| Json.UnmarshalWrongLength | ksuidx_test.go:174-180 | a non-empty string whose length is neither 27 nor 30 gives `errStringSize` and leaves the receiver unchanged |

## Left out

- `New`, `NewRandom`, `NewRandomWithTime` and `ID.Time`: they read the wall clock and the random source, and `New` panics on failure.
- `MustNamespace`'s panic: the model only covers the 3-byte input on which it does not panic.
- The KSUID library's internals: the base62 codec, its length checks, `Time`, and how `ksuid.Nil` is built. A KSUID is an opaque 20-byte value, and the codec is a parameter.
  - The round-trip lemmas assume the codec properties they name.
  - `ksuid.IsNil` is modelled as equality with the all-zero value.
  - `ksuid.KSUID.Append` is modelled as appending the same text that `format` gives.
- JSON lexing by `encoding/json`: syntax errors and the unescaping of string literals. The model starts from the already-decoded string. JSON `null` leaves that string empty, so it sets the receiver to `Nil`. That is the `UnmarshalString(c, receiver, [])` case.
- Json.JsonRoundTrip: takes the bytes between MarshalJSON's quotes as the decoded string. The real round trip goes through the JSON decoder. MarshalJSON does not escape the namespace bytes, so a namespace containing `"`, `\`, a control byte, or a byte that is not valid UTF-8 gives output that a JSON decoder would not read back this way. The JSON decoder is not part of this model, so this case is not modelled.
- The message texts of `errNamespaceSize` and `errStringSize`: each is a distinct error value, and only its identity is modelled.
- Slice aliasing: Go's `append` in `Namespace.Append` and `ID.Append` may write into spare capacity of the caller's array, where other slices sharing it can see the bytes. The model treats buffers as values. No operation of the package depends on this.
- The unexported helper `Namespace.raw`: it is inlined as the namespace's `raw` field.
