/** Definitions shared by several parts. */
module Common {

  datatype Option<+T> = None | Some(value: T)

  const INT32_MAX: int := 0x7FFF_FFFF
  const INT64_MAX: int := 0x7FFF_FFFF_FFFF_FFFF
}
