/** The guarded wrappers (imgen.py:34-49). Each one conditions the arguments
    of a numpy operation so that, under `np.errstate(... 'raise')`, the
    operation never sees an argument outside its domain: divisors and
    logarithm arguments are pushed away from zero, inverse-trigonometric
    arguments are rescaled into `[-1, 1]`, power operands into
    `[0.001, 1]`, and sine/cosine arguments into `[-5, 5]`. */
module SafeOps {
  import opened Outcomes
  import opened Numpy
  import opened Normalize

  const MinMagnitude: real := 0.001

  /** `np.maximum(np.abs(a), 0.001)`: magnitudes of at least 0.001, equal to
      `|a[i]|` wherever that is already at least 0.001. */
  function Guarded(a: seq<real>): (r: seq<real>)
    ensures |r| == |a|
    ensures forall i :: 0 <= i < |a| ==> r[i] >= MinMagnitude
    ensures forall i :: 0 <= i < |a| && Abs(a[i]) >= MinMagnitude ==> r[i] == Abs(a[i])
  {
    MaximumAbs(a, MinMagnitude)
  }

  /** The argument `safe_sin` and `safe_cos` hand to np.sin / np.cos. */
  function TrigArgument(a: seq<real>): (r: seq<real>)
    requires |a| > 0
    ensures |r| == |a| && AllIn(r, -5.0, 5.0)
  {
    ScaleRangeBounds(a, -5.0, 5.0);
    ScaleRange(a, -5.0, 5.0)
  }

  /** The argument `safe_arcsin` and `safe_arccos` hand to np.arcsin / np.arccos. */
  function UnitArgument(a: seq<real>): (r: seq<real>)
    requires |a| > 0
    ensures |r| == |a| && AllIn(r, -1.0, 1.0)
  {
    ScaleRangeBounds(a, -1.0, 1.0);
    ScaleRange(a, -1.0, 1.0)
  }

  /** Each operand `safe_power` hands to np.power. */
  function PowerArgument(a: seq<real>): (r: seq<real>)
    requires |a| > 0
    ensures |r| == |a| && AllIn(r, MinMagnitude, 1.0)
  {
    ScaleRangeBounds(a, MinMagnitude, 1.0);
    ScaleRange(a, MinMagnitude, 1.0)
  }

  /** `div_ab(a, b)`: divides `a` by the guarded magnitude of `b`. Never
      raises; the quotient times the guarded divisor gives back `a`. */
  function DivAB(a: seq<real>, b: seq<real>): (r: Result<seq<real>>)
    requires |a| == |b|
    ensures r.Ok? && |r.value| == |a|
    ensures forall i :: 0 <= i < |a| ==> r.value[i] * Guarded(b)[i] == a[i]
  {
    Divide(a, Guarded(b))
  }

  /** `div_ba(a, b)`: divides `b` by the guarded magnitude of `a`. */
  function DivBA(a: seq<real>, b: seq<real>): (r: Result<seq<real>>)
    requires |a| == |b|
    ensures r.Ok? && |r.value| == |a|
    ensures forall i :: 0 <= i < |a| ==> r.value[i] * Guarded(a)[i] == b[i]
  {
    Divide(b, Guarded(a))
  }

  /** `safe_log(x)`: the logarithm of the guarded magnitude. Never raises. */
  function SafeLog(t: Transcendentals, x: seq<real>): (r: Result<seq<real>>)
    ensures r.Ok? && |r.value| == |x|
  {
    Log(t, Guarded(x))
  }

  function SafeSin(t: Transcendentals, a: seq<real>): (r: seq<real>)
    requires |a| > 0
    ensures |r| == |a|
  {
    Sin(t, TrigArgument(a))
  }

  function SafeCos(t: Transcendentals, a: seq<real>): (r: seq<real>)
    requires |a| > 0
    ensures |r| == |a|
  {
    Cos(t, TrigArgument(a))
  }

  /** `safe_arcsin(a)`: never raises, whatever the range of `a`. */
  function SafeArcsin(t: Transcendentals, a: seq<real>): (r: Result<seq<real>>)
    requires |a| > 0
    ensures r.Ok? && |r.value| == |a|
  {
    Arcsin(t, UnitArgument(a))
  }

  /** `safe_arccos(a)`: never raises, whatever the range of `a`. */
  function SafeArccos(t: Transcendentals, a: seq<real>): (r: Result<seq<real>>)
    requires |a| > 0
    ensures r.Ok? && |r.value| == |a|
  {
    Arccos(t, UnitArgument(a))
  }

  /** `safe_power(a, b)`: never raises, whatever the ranges of `a` and `b`. */
  function SafePower(t: Transcendentals, a: seq<real>, b: seq<real>): (r: Result<seq<real>>)
    requires |a| == |b| > 0
    ensures r.Ok? && |r.value| == |a|
  {
    Power(t, PowerArgument(a), PowerArgument(b))
  }

  /** Without its guard, np.arcsin raises on some fields: the rescale is what
      makes `safe_arcsin` total. */
  lemma UnguardedArcsinRaises(t: Transcendentals)
    ensures Arcsin(t, [2.0]).Err?
    ensures SafeArcsin(t, [2.0]).Ok?
  {
    assert !InverseTrigDefined([2.0][0]);
  }

  /** Without its guard, np.log raises on a zero, and np.divide on a zero
      divisor. */
  lemma UnguardedLogAndDivideRaise(t: Transcendentals)
    ensures Log(t, [0.0]).Err? && SafeLog(t, [0.0]).Ok?
    ensures Divide([1.0], [0.0]).Err? && DivAB([1.0], [0.0]).Ok?
  {
    assert !LogDefined([0.0][0]);
    assert !DivideDefined([0.0][0]);
  }
}
