/** Small helper datatypes shared by the other modules. */
module Wrappers {

  /** A value that may be absent, in place of a NULL pointer. */
  datatype Option<+T> = None | Some(value: T)

  /** The smaller of two naturals (the `a < b ? a : b` of the C code). */
  function Min(a: nat, b: nat): (m: nat)
    ensures m <= a && m <= b
    ensures m == a || m == b
  {
    if a < b then a else b
  }
}
