/** Types shared by every component of the model. */
module Common {
  datatype Option<+T> = None | Some(value: T)

  /** One unsigned char. */
  newtype Byte = x: int | 0 <= x < 256

  function Min(a: int, b: int): (m: int)
    ensures m <= a && m <= b && (m == a || m == b)
  {
    if a < b then a else b
  }
}
