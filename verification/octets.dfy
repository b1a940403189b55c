/** Byte sequences, the common currency of the model. */
module Octets {

  type Byte = bv8

  /** Go's []byte. Go strings are modelled as the same byte sequences, since
      their length and slicing count bytes. */
  type Buffer = seq<Byte>
}
