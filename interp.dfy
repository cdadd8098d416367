/** Two-point linear interpolation over the reals: the model of `linearTransform`
    (LinearTransform.hpp is not part of this model; the standard formula is used). */
module Interp {

  /** `linearTransform(x0, x1, y0, y1, x).val`: the line through (x0, y0) and (x1, y1), read at x.
      The source divides by x1 - x0, so the two abscissae must differ. */
  function LinearTransform(x0: real, x1: real, y0: real, y1: real, x: real): real
    requires x0 != x1
  {
    y0 + (y1 - y0) * (x - x0) / (x1 - x0)
  }

  /** The share of the upper point in the interpolated value. */
  function Weight(x0: real, x1: real, x: real): real
    requires x0 != x1
  {
    (x - x0) / (x1 - x0)
  }

  function Min(a: real, b: real): real { if a <= b then a else b }

  function Max(a: real, b: real): real { if a <= b then b else a }

  /** The interpolated value is the convex combination (1 - t) * y0 + t * y1 of the end values. */
  lemma ConvexForm(x0: real, x1: real, y0: real, y1: real, x: real)
    requires x0 != x1
    ensures LinearTransform(x0, x1, y0, y1, x)
            == (1.0 - Weight(x0, x1, x)) * y0 + Weight(x0, x1, x) * y1
  {
    var t := Weight(x0, x1, x);
    calc {
      LinearTransform(x0, x1, y0, y1, x);
      y0 + (y1 - y0) * (x - x0) / (x1 - x0);
      { assert (y1 - y0) * (x - x0) / (x1 - x0) == (y1 - y0) * ((x - x0) / (x1 - x0)); }
      y0 + (y1 - y0) * t;
      (1.0 - t) * y0 + t * y1;
    }
  }

  /** Inside the bracket the weight lies in [0, 1]. */
  lemma WeightInUnit(x0: real, x1: real, x: real)
    requires x0 < x1 && x0 <= x <= x1
    ensures 0.0 <= Weight(x0, x1, x) <= 1.0
  {
    var d := x1 - x0;
    assert 0.0 <= (x - x0) / d by {
      assert x - x0 >= 0.0 && d > 0.0;
    }
    assert 0.0 <= (x1 - x) / d;
    assert (x - x0) / d + (x1 - x) / d == d / d == 1.0;
  }

  /** Inside the bracket the value lies between the two end values. */
  lemma Between(x0: real, x1: real, y0: real, y1: real, x: real)
    requires x0 < x1 && x0 <= x <= x1
    ensures Min(y0, y1) <= LinearTransform(x0, x1, y0, y1, x) <= Max(y0, y1)
  {
    var lo, hi := Min(y0, y1), Max(y0, y1);
    Monotone(x0, x1, lo, lo, y0, y1, x);
    Monotone(x0, x1, y0, y1, hi, hi, x);
    assert LinearTransform(x0, x1, lo, lo, x) == lo;
    assert LinearTransform(x0, x1, hi, hi, x) == hi;
  }

  /** Inside the bracket, interpolation preserves the pointwise order of the end values:
      the step that makes an interpolated mass list ascending. */
  lemma Monotone(x0: real, x1: real, y0: real, y1: real, z0: real, z1: real, x: real)
    requires x0 < x1 && x0 <= x <= x1
    requires y0 <= z0 && y1 <= z1
    ensures LinearTransform(x0, x1, y0, y1, x) <= LinearTransform(x0, x1, z0, z1, x)
  {
    var t := Weight(x0, x1, x);
    WeightInUnit(x0, x1, x);
    ConvexForm(x0, x1, y0, y1, x);
    ConvexForm(x0, x1, z0, z1, x);
    assert (1.0 - t) * y0 <= (1.0 - t) * z0;
    assert t * y1 <= t * z1;
  }

  /** Interpolation is exact at the lower node. */
  lemma AtLower(x0: real, x1: real, y0: real, y1: real)
    requires x0 != x1
    ensures LinearTransform(x0, x1, y0, y1, x0) == y0
  {
  }

  /** Interpolation is exact at the upper node. */
  lemma AtUpper(x0: real, x1: real, y0: real, y1: real)
    requires x0 != x1
    ensures LinearTransform(x0, x1, y0, y1, x1) == y1
  {
    assert (x1 - x0) / (x1 - x0) == 1.0;
  }
}
