/** Identifiers and small types shared by every part of the drop model. */
module Tech {

  /** The game's item identifier. `None` is the enum's empty value, used as "nothing chosen". */
  datatype TechType = None | Tech(id: nat)

  /** C#'s `ushort`: 0 to 65535. */
  type UShort = x: int | 0 <= x < 0x1_0000

  /** The .NET exceptions the modelled code can raise (`ArgumentException` is `Argument`). */
  datatype Exception = KeyNotFound | NullReference | ArgumentNull | Argument

  /** The result of a call that may throw: its value, or the exception it raised. */
  datatype Outcome<+T> = Done(value: T) | Threw(error: Exception)
}
