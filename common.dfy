/** Small value types shared by every store of the client. */
module Common {

  /** A value that may be absent (`null` / `undefined` in the client). */
  datatype Option<+T> = None | Some(value: T)

  /** How a promise settles: the outcome of one server call given to a store
      action, and the outcome of the promise the action itself returns.
      A store only ever rethrows the error it caught, so the error carries no
      payload of its own. */
  datatype Outcome<+T> = Success(value: T) | Failure

  /** `Math.max` on two integers. */
  function Max(a: int, b: int): (m: int)
    ensures m >= a && m >= b && (m == a || m == b)
  {
    if a >= b then a else b
  }
}
