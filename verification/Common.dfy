/** The vocabulary shared by the modules below. */
module Common {
  datatype Option<+T> = None | Some(value: T)

  const NULL := 0
  const CL_SUCCESS := 0
  const INT_MAX := 0x7fff_ffff

  /** C's `int`. */
  type int32 = x: int | -0x8000_0000 <= x <= 0x7fff_ffff
}
