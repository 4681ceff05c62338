/** What several parts of the model share. */
module Common {
  datatype Option<+T> = None | Some(value: T)

  /** Values of a 32-bit word. */
  const U32: nat := 0x1_0000_0000
}
