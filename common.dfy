/**
 * Small helpers shared by the component models: integer versions of
 * JavaScript's Math.min and Math.max, and repetition of one event.
 */
module Common {

  /** Math.min on two integers. */
  function Min(a: int, b: int): int {
    if a <= b then a else b
  }

  /** Math.max on two integers. */
  function Max(a: int, b: int): int {
    if a >= b then a else b
  }

  /** The same event delivered k times in a row. */
  function Repeated<T>(x: T, k: nat): (r: seq<T>)
    ensures |r| == k
    ensures forall i :: 0 <= i < |r| ==> r[i] == x
  {
    if k == 0 then [] else [x] + Repeated(x, k - 1)
  }
}
