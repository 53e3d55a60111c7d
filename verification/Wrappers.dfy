/** Shared values: an optional column, spans of time, and the rounding the source applies to amounts. */
module Wrappers {

  const MINUTE := 60_000
  const HOUR := 60 * MINUTE
  const DAY := 24 * HOUR

  datatype Option<+T> = None | Some(value: T) {

    /** The `??` operator of the source. */
    function GetOr(default: T): T {
      match this
      case Some(v) => v
      case None => default
    }
  }

  /** `Math.round`: to the nearest integer, halves towards plus infinity. */
  function Round(x: real): int {
    (x + 0.5).Floor
  }

  function Max(x: int, y: int): int {
    if x < y then y else x
  }

  function Min(x: int, y: int): int {
    if x < y then x else y
  }

  /** The last place whose element passes the test. */
  function LastIndex<T>(s: seq<T>, test: T -> bool): (place: Option<nat>)
    ensures place.Some? ==> place.value < |s| && test(s[place.value])
    ensures place.Some? ==> forall i | place.value < i < |s| :: !test(s[i])
    ensures place.None? ==> forall i | 0 <= i < |s| :: !test(s[i])
  {
    if s == [] then None
    else if test(s[|s| - 1]) then Some(|s| - 1)
    else LastIndex(s[..|s| - 1], test)
  }
}
