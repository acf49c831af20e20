/** Small value wrappers shared by the multiplayer and cinematic models. */
module Wrappers {
  /** A value that may be absent: the model's stand-in for a NULL reference. */
  datatype Option<T> = None | Some(value: T)

  /** Clamps `x` into [lo, hi], as idMath::ClampInt does. */
  function ClampInt(lo: int, hi: int, x: int): (r: int)
    requires lo <= hi
    ensures lo <= r <= hi
    ensures lo <= x <= hi ==> r == x
    ensures x < lo ==> r == lo
    ensures x > hi ==> r == hi
  {
    if x < lo then lo else if x > hi then hi else x
  }
}
