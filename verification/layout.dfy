/** The fixed sizes of the namespaced identifier and the error values its
    operations return. */
module Layout {
  import opened Wrappers
  import KsuidLib

  /** Length of an ID in bytes. */
  const ByteLength: nat := 23

  /** Length of the KSUID segment of an ID. */
  const BaseLength: nat := KsuidLib.Length

  /** Length of a namespace, the bytes [0, 3) of an ID. */
  const NsLength: nat := ByteLength - BaseLength

  /** Length of an ID's text encoding. */
  const StringEncodedLength: nat := 30

  /** Length of a bare KSUID's text encoding, accepted by Parse as well. */
  const BareStringLength: nat := StringEncodedLength - NsLength

  /** The errors an operation can return: the two canonical size errors of
      this package, or an error of the KSUID library passed on unchanged. */
  datatype Error =
    | NamespaceSize
    | StringSize
    | Foreign(cause: KsuidLib.KsuidError)

  /** A Go (value, error) pair. The value is meaningful when `err` is `None`;
      on failure it is whatever the Go function returns alongside the error. */
  datatype Returned<T> = Returned(value: T, err: Option<Error>) {
    predicate Ok() {
      err.None?
    }
  }
}
