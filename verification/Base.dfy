/**
 What several modules share.
 */
module Base {

  datatype Option<+T> = None | Some(value: T)

  const PAGE_SIZE: nat := 4096
  const USIZE_MAX: nat := 0xFFFF_FFFF_FFFF_FFFF
}
