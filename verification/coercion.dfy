/** Numeric coercion of form fields and the rounding applied when a figure is
    shown on a card.

    A field's text is taken as already parsed: `None` stands for an empty or
    unparseable field (the NaN that `parseFloat`/`parseInt` return), `Some(v)`
    for the number read. The calculator never reports bad input; it replaces
    it with a fallback through JavaScript's `value || fallback`, which
    substitutes the fallback for every falsy number, that is for NaN and 0.
 */
module Coercion {

  datatype Option<+T> = None | Some(value: T)

  /** `parseFloat(field) || fallback`: NaN and 0 give the fallback, every other
      number (negative ones included) passes through unchanged. */
  function OrDefault(field: Option<real>, fallback: real): (r: real)
    ensures field.Some? && field.value != 0.0 ==> r == field.value
    ensures field.None? || field.value == 0.0 ==> r == fallback
  {
    match field
    case Some(v) => if v != 0.0 then v else fallback
    case None => fallback
  }

  /** `parseInt(field, 10) || fallback`, the integer counterpart. */
  function IntOrDefault(field: Option<int>, fallback: int): (r: int)
    ensures field.Some? && field.value != 0 ==> r == field.value
    ensures field.None? || field.value == 0 ==> r == fallback
  {
    match field
    case Some(v) => if v != 0 then v else fallback
    case None => fallback
  }

  /** `Math.round`: the nearest integer, halves rounded towards +infinity. */
  function Round(x: real): (r: int)
    ensures r as real - 0.5 <= x < r as real + 0.5
  {
    (x + 0.5).Floor
  }

  /** Rounding is monotone, so it never reverses the order of two figures. */
  lemma RoundMonotone(x: real, y: real)
    requires x <= y
    ensures Round(x) <= Round(y)
  {
  }
}
