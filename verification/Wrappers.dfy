/** Result shapes and machine bounds shared by every component. */
module Wrappers {
  datatype Option<+T> = None | Some(value: T)

  datatype Result<+T, +E> = Ok(value: T) | Err(error: E)

  /** The largest `u64`: the ceiling of versions and of `$all` positions. */
  const U64_MAX: nat := 0xFFFF_FFFF_FFFF_FFFF
}
