/** `scale_range` (imgen.py:21-24): the linear map of a field's observed range
    `[x.min(), x.max()]` onto a target `[a, b]`, with a constant-midpoint
    answer for a field whose spread is below 0.001. */
module Normalize {
  import opened Numpy

  const Epsilon: real := 0.001

  function Spread(x: seq<real>): (s: real)
    requires |x| > 0
    ensures s >= 0.0
  {
    SeqMax(x) - SeqMin(x)
  }

  /** `np.interp` of `v` with source points `(lo, hi)` and targets `(a, b)`.
      Inside `[lo, hi]`, the only points `scale_range` passes, it is the
      linear map below; outside, numpy clamps instead, which is not modelled. */
  function Interp(v: real, lo: real, hi: real, a: real, b: real): real
    requires lo < hi && lo <= v <= hi
  {
    a + (v - lo) * (b - a) / (hi - lo)
  }

  function ScaleRange(x: seq<real>, a: real, b: real): (r: seq<real>)
    requires |x| > 0
    ensures |r| == |x|
  {
    if Spread(x) < Epsilon then seq(|x|, _ => (a + b) * 0.5)
    else seq(|x|, i requires 0 <= i < |x| => Interp(x[i], SeqMin(x), SeqMax(x), a, b))
  }

  /** A field whose spread is below epsilon becomes the midpoint of `[a, b]`. */
  lemma ScaleRangeDegenerate(x: seq<real>, a: real, b: real)
    requires |x| > 0 && Spread(x) < Epsilon
    ensures forall i :: 0 <= i < |x| ==> ScaleRange(x, a, b)[i] == (a + b) / 2.0
  {
  }

  // Facts about one interpolated point.

  lemma FractionBounds(n: real, d: real, w: real)
    requires 0.0 <= n <= d && d > 0.0 && w >= 0.0
    ensures 0.0 <= n * w / d <= w
  {
    MulMono(0.0, n, w);
    MulMono(n, d, w);
    DivMono(0.0, n * w, d);
    DivMono(n * w, d * w, d);
    MulDivCancel(w, d);
  }

  lemma InterpBounds(v: real, lo: real, hi: real, a: real, b: real)
    requires lo < hi && lo <= v <= hi && a <= b
    ensures a <= Interp(v, lo, hi, a, b) <= b
  {
    FractionBounds(v - lo, hi - lo, b - a);
  }

  lemma InterpMonotone(v: real, w: real, lo: real, hi: real, a: real, b: real)
    requires lo < hi && lo <= v <= w <= hi && a <= b
    ensures Interp(v, lo, hi, a, b) <= Interp(w, lo, hi, a, b)
  {
    MulMono(v - lo, w - lo, b - a);
    DivMono((v - lo) * (b - a), (w - lo) * (b - a), hi - lo);
  }

  lemma InterpStrict(v: real, w: real, lo: real, hi: real, a: real, b: real)
    requires lo < hi && lo <= v < w <= hi && a < b
    ensures Interp(v, lo, hi, a, b) < Interp(w, lo, hi, a, b)
  {
    var d, e := hi - lo, b - a;
    assert (v - lo) * e < (w - lo) * e;
    assert (v - lo) * e / d < (w - lo) * e / d;
  }

  lemma InterpAtEnds(lo: real, hi: real, a: real, b: real)
    requires lo < hi
    ensures Interp(lo, lo, hi, a, b) == a
    ensures Interp(hi, lo, hi, a, b) == b
  {
    assert (hi - lo) * (b - a) == (b - a) * (hi - lo);
    MulDivCancel(b - a, hi - lo);
  }

  /** The inverse of `Interp`: the source point that maps to `y`. */
  function Unscale(y: real, lo: real, hi: real, a: real, b: real): real
    requires a < b
  {
    lo + (y - a) * (hi - lo) / (b - a)
  }

  lemma InterpInverse(v: real, lo: real, hi: real, a: real, b: real)
    requires lo < hi && lo <= v <= hi && a < b
    ensures Unscale(Interp(v, lo, hi, a, b), lo, hi, a, b) == v
  {
    DivMulBack(v - lo, hi - lo, b - a);
  }

  /** For `a <= b` every output element lies in `[a, b]`, in both branches. */
  lemma ScaleRangeBounds(x: seq<real>, a: real, b: real)
    requires |x| > 0 && a <= b
    ensures AllIn(ScaleRange(x, a, b), a, b)
  {
    var r := ScaleRange(x, a, b);
    if Spread(x) >= Epsilon {
      forall i | 0 <= i < |x|
        ensures a <= r[i] <= b
      {
        InterpBounds(x[i], SeqMin(x), SeqMax(x), a, b);
      }
    }
  }

  /** Outside the degenerate case the smallest input maps to `a` and the
      largest to `b`, and both are attained. */
  lemma ScaleRangeEndpoints(x: seq<real>, a: real, b: real)
    requires |x| > 0 && Spread(x) >= Epsilon
    ensures forall i :: 0 <= i < |x| && x[i] == SeqMin(x) ==> ScaleRange(x, a, b)[i] == a
    ensures forall i :: 0 <= i < |x| && x[i] == SeqMax(x) ==> ScaleRange(x, a, b)[i] == b
    ensures exists i :: 0 <= i < |x| && ScaleRange(x, a, b)[i] == a
    ensures exists j :: 0 <= j < |x| && ScaleRange(x, a, b)[j] == b
  {
    var r := ScaleRange(x, a, b);
    var lo, hi := SeqMin(x), SeqMax(x);
    InterpAtEnds(lo, hi, a, b);
    forall i | 0 <= i < |x| && x[i] == lo
      ensures r[i] == a
    {
      assert r[i] == Interp(lo, lo, hi, a, b);
    }
    forall i | 0 <= i < |x| && x[i] == hi
      ensures r[i] == b
    {
      assert r[i] == Interp(hi, lo, hi, a, b);
    }
    var i :| 0 <= i < |x| && x[i] == lo;
    var j :| 0 <= j < |x| && x[j] == hi;
    assert r[i] == a;
    assert r[j] == b;
  }

  /** For `a <= b` the map preserves order. */
  lemma ScaleRangeMonotone(x: seq<real>, a: real, b: real, i: int, j: int)
    requires |x| > 0 && a <= b
    requires 0 <= i < |x| && 0 <= j < |x| && x[i] <= x[j]
    ensures ScaleRange(x, a, b)[i] <= ScaleRange(x, a, b)[j]
  {
    if Spread(x) >= Epsilon {
      InterpMonotone(x[i], x[j], SeqMin(x), SeqMax(x), a, b);
    }
  }

  /** Outside the degenerate case, and for `a < b`, the map is invertible:
      each input element is recovered from its image, so the map also
      reflects order. */
  lemma ScaleRangeInvertible(x: seq<real>, a: real, b: real)
    requires |x| > 0 && Spread(x) >= Epsilon && a < b
    ensures forall i :: 0 <= i < |x| ==>
      Unscale(ScaleRange(x, a, b)[i], SeqMin(x), SeqMax(x), a, b) == x[i]
  {
    var r := ScaleRange(x, a, b);
    var lo, hi := SeqMin(x), SeqMax(x);
    forall i | 0 <= i < |x|
      ensures Unscale(r[i], lo, hi, a, b) == x[i]
    {
      InterpInverse(x[i], lo, hi, a, b);
    }
  }

  /** For `a < b` outside the degenerate case, `out[i] <= out[j]` exactly when
      `x[i] <= x[j]`. */
  lemma ScaleRangeOrderIff(x: seq<real>, a: real, b: real, i: int, j: int)
    requires |x| > 0 && Spread(x) >= Epsilon && a < b
    requires 0 <= i < |x| && 0 <= j < |x|
    ensures ScaleRange(x, a, b)[i] <= ScaleRange(x, a, b)[j] <==> x[i] <= x[j]
  {
    var r := ScaleRange(x, a, b);
    if x[i] <= x[j] {
      ScaleRangeMonotone(x, a, b, i, j);
    } else {
      InterpStrict(x[j], x[i], SeqMin(x), SeqMax(x), a, b);
    }
  }

  /** Example: a constant field rescaled to `[0, 1]` is all halves. */
  lemma ScaleRangeConstantExample()
    ensures ScaleRange([5.0, 5.0, 5.0, 5.0], 0.0, 1.0) == [0.5, 0.5, 0.5, 0.5]
  {
    var x := [5.0, 5.0, 5.0, 5.0];
    assert SeqMin(x) == 5.0 && SeqMax(x) == 5.0;
  }
}
