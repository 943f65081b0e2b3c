/** The few pieces of java.lang the framework depends on. */
module Lang {

  /** Java's 32-bit `int`. */
  newtype int32 = x: int | -0x8000_0000 <= x < 0x8000_0000

  /** `Integer.MAX_VALUE`. */
  const INT_MAX: int32 := 0x7fff_ffff

  /** The exceptions the modelled code can throw. */
  datatype Exception =
    | NullPointerException
    | IllegalArgumentException(message: string)
}
