/** Types and constants shared by the modules of the model. */
module Common {

  datatype Option<+T> = None | Some(value: T)

  type Byte = b: int | 0 <= b < 256

  const TWO63 := 0x8000_0000_0000_0000

  const TWO64 := 0x1_0000_0000_0000_0000
}
