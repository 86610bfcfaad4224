/** Magnitudes and products of real numbers, one algebraic step at a time. */
module Reals {
  function Abs(x: real): real {
    if x < 0.0 then -x else x
  }

  lemma Distribute(a: real, x: real, y: real)
    ensures a * (x + y) == a * x + a * y
  {
  }

  lemma ProductNotNegative(w: real, d: real)
    requires 0.0 <= w && 0.0 <= d
    ensures 0.0 <= w * d
  {
  }

  lemma TimesDifference(w: real, a: real, b: real)
    ensures w * (b - a) == w * b - w * a
  {
  }

  lemma Scale(w: real, a: real, b: real)
    requires 0.0 <= w && a <= b
    ensures w * a <= w * b
  {
    ProductNotNegative(w, b - a);
    TimesDifference(w, a, b);
  }

  lemma DifferenceTimes(w: real, a: real, b: real)
    ensures (b - a) * w == b * w - a * w
  {
  }
}
