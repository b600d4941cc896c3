/** Plain value wrappers shared by the whole model, and the JavaScript number
    coercion the engine relies on (`Number(x)` followed by `Number.isFinite`). */
module Values {

  datatype Option<+T> = None | Some(value: T)

  /** A computation that either succeeds or fails with a message (a thrown Error). */
  datatype Result<+T> = Ok(value: T) | Err(message: string)

  /** A loosely typed JavaScript value read where a number is expected.
      `Finite(n)` is a value that `Number` turns into a finite number; the payload
      is already expressed in the model's unit (whole minutes). `NotNumeric`
      stands for anything `Number` turns into NaN or an infinity (a non-numeric
      string, an object); `safeNum` treats both alike, though the two
      `decToHHMM` formatters would print an infinity differently. `null` is kept apart from `undefined` because
      `Number(null)` is 0 while `Number(undefined)` is NaN. */
  datatype Raw = Undefined | Null | NotNumeric | Finite(n: int)

  /** `safeNum(x, def)`: the number `x` stands for when it is finite, otherwise `def`. */
  function SafeNum(x: Raw, def: int): int
  {
    match x
    case Finite(n) => n
    case Null => 0
    case Undefined => def
    case NotNumeric => def
  }

  /** `Math.max(0, x)`. */
  function Max0(x: int): int
  {
    if x > 0 then x else 0
  }
}
