/** The part of JavaScript's string semantics the check-session monitor relies on:
    `String.prototype.indexOf`, used to compare a message origin with the provider's URL. */
module JsString {

  /** `needle` occurs in `hay` starting at index `i`. */
  predicate OccursAt(hay: string, needle: string, i: int) {
    0 <= i && i + |needle| <= |hay| && hay[i..i + |needle|] == needle
  }

  /** The first index at or after `from` where `needle` occurs, or -1: the search
      `hay.indexOf(needle, from)` performs when `from <= |hay|` (JavaScript clamps a larger `from`
      to `|hay|`, where an empty `needle` is found; the monitor searches from 0 only). */
  function IndexFrom(hay: string, needle: string, from: nat): (r: int)
    ensures r == -1 || (from <= r && OccursAt(hay, needle, r))
    ensures r != -1 ==> forall i :: from <= i < r ==> !OccursAt(hay, needle, i)
    ensures r == -1 ==> forall i :: from <= i ==> !OccursAt(hay, needle, i)
    decreases |hay| - from
  {
    if from + |needle| > |hay| then -1
    else if hay[from..from + |needle|] == needle then from
    else IndexFrom(hay, needle, from + 1)
  }

  /** `hay.indexOf(needle)`: the first occurrence of `needle` in `hay`, or -1 when there is none.
      An empty `needle` occurs at 0. */
  function IndexOf(hay: string, needle: string): (r: int)
    ensures r == -1 <==> forall i :: !OccursAt(hay, needle, i)
    ensures r != -1 ==> 0 <= r && OccursAt(hay, needle, r) && forall i :: 0 <= i < r ==> !OccursAt(hay, needle, i)
  {
    IndexFrom(hay, needle, 0)
  }
}
