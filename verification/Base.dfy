/** Optional values. */
module Options {
  datatype Option<+T> = None | Some(value: T)
}

/** The sizes of machine words. */
module Words {
  const TWO31: int := 0x8000_0000
  const TWO32: int := 0x1_0000_0000
  const TWO64: nat := 0x1_0000_0000_0000_0000
}
