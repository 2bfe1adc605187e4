/** The stock optional value. */
module Options {
  datatype Option<+T> = None | Some(value: T)

  /** The smaller of two optional numbers; an absent one is the larger. */
  function Least(a: Option<nat>, b: Option<nat>): Option<nat> {
    match (a, b)
    case (None, _) => b
    case (_, None) => a
    case (Some(x), Some(y)) => Some(if x <= y then x else y)
  }

  /** The optional number raised by k. */
  function Plus(a: Option<nat>, k: nat): Option<nat> {
    if a.Some? then Some(a.value + k) else None
  }
}
