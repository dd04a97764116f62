/** Device names, as the driver, the library and the utility pass them. */
module Names {
  import opened Segments

  type Name = seq<byte>

  /** The size of a name's field, its terminator included. */
  const NAME_SIZE: nat := 32

  /** A device name: NUL-free, and short enough for its field. */
  predicate Proper(n: Name) {
    0 < |n| < NAME_SIZE && 0 !in n
  }

  predicate AllProper(names: seq<Name>) {
    forall i :: 0 <= i < |names| ==> Proper(names[i])
  }
}
