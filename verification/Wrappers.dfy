// What every file shares: optional results, and the number of values of a 32-bit word.
module Wrappers {

  datatype Option<+T> = None | Some(value: T)

  const U32: nat := 0x1_0000_0000
}
