/** The slice of numpy that the generator uses: element-wise operations on
    flat arrays of reals, evaluated under `np.errstate(... 'raise')`.

    Values of the transcendental functions are not modelled: they are passed
    in as a `Transcendentals` record of arbitrary total functions. What is
    modelled is WHEN numpy raises: under `errstate(invalid='raise',
    divide='raise')` an operation that meets an argument outside its
    mathematical domain raises `FloatingPointError`. */
module Numpy {
  import opened Outcomes

  /** The values of np.sin, np.cos, np.arcsin, np.arccos, np.log and np.power,
      left uninterpreted. */
  datatype Transcendentals = Transcendentals(
    sin: real -> real,
    cos: real -> real,
    arcsin: real -> real,
    arccos: real -> real,
    log: real -> real,
    power: (real, real) -> real)

  function Abs(x: real): real { if x < 0.0 then -x else x }

  function MaxReal(x: real, y: real): real { if x < y then y else x }

  /** Every element of `a` lies in `[lo, hi]`. */
  predicate AllIn(a: seq<real>, lo: real, hi: real) {
    forall i :: 0 <= i < |a| ==> lo <= a[i] <= hi
  }

  function Map1(f: real -> real, a: seq<real>): (r: seq<real>)
    ensures |r| == |a|
  {
    seq(|a|, i requires 0 <= i < |a| => f(a[i]))
  }

  function Map2(f: (real, real) -> real, a: seq<real>, b: seq<real>): (r: seq<real>)
    requires |a| == |b|
    ensures |r| == |a|
  {
    seq(|a|, i requires 0 <= i < |a| => f(a[i], b[i]))
  }

  // Domains outside which numpy flags 'invalid' or 'divide'.

  predicate InverseTrigDefined(x: real) { -1.0 <= x <= 1.0 }

  predicate LogDefined(x: real) { x > 0.0 }

  /** A negative base with a non-integral exponent is 'invalid'; zero to a
      negative power is 'divide'. */
  predicate PowerDefined(x: real, y: real) {
    x > 0.0 || (x == 0.0 && y >= 0.0) || (x < 0.0 && y == y.Floor as real)
  }

  predicate DivideDefined(divisor: real) { divisor != 0.0 }

  function Sin(t: Transcendentals, a: seq<real>): seq<real> { Map1(t.sin, a) }

  function Cos(t: Transcendentals, a: seq<real>): seq<real> { Map1(t.cos, a) }

  /** np.arcsin raises exactly when some element lies outside `[-1, 1]`. */
  function Arcsin(t: Transcendentals, a: seq<real>): (r: Result<seq<real>>)
    ensures r.Err? <==> exists i :: 0 <= i < |a| && (a[i] < -1.0 || a[i] > 1.0)
    ensures r.Err? ==> r.error == FloatingPointError
    ensures r.Ok? ==> |r.value| == |a|
  {
    if forall i :: 0 <= i < |a| ==> InverseTrigDefined(a[i]) then Ok(Map1(t.arcsin, a))
    else Err(FloatingPointError)
  }

  /** np.arccos raises exactly when some element lies outside `[-1, 1]`. */
  function Arccos(t: Transcendentals, a: seq<real>): (r: Result<seq<real>>)
    ensures r.Err? <==> exists i :: 0 <= i < |a| && (a[i] < -1.0 || a[i] > 1.0)
    ensures r.Err? ==> r.error == FloatingPointError
    ensures r.Ok? ==> |r.value| == |a|
  {
    if forall i :: 0 <= i < |a| ==> InverseTrigDefined(a[i]) then Ok(Map1(t.arccos, a))
    else Err(FloatingPointError)
  }

  /** np.log raises exactly when some element is zero or negative. */
  function Log(t: Transcendentals, a: seq<real>): (r: Result<seq<real>>)
    ensures r.Err? <==> exists i :: 0 <= i < |a| && a[i] <= 0.0
    ensures r.Err? ==> r.error == FloatingPointError
    ensures r.Ok? ==> |r.value| == |a|
  {
    if forall i :: 0 <= i < |a| ==> LogDefined(a[i]) then Ok(Map1(t.log, a))
    else Err(FloatingPointError)
  }

  /** np.power raises exactly when some base is zero under a negative
      exponent, or negative under a non-integral one. */
  function Power(t: Transcendentals, a: seq<real>, b: seq<real>): (r: Result<seq<real>>)
    requires |a| == |b|
    ensures r.Err? <==>
      exists i :: 0 <= i < |a| && ((a[i] == 0.0 && b[i] < 0.0) || (a[i] < 0.0 && b[i] != b[i].Floor as real))
    ensures r.Err? ==> r.error == FloatingPointError
    ensures r.Ok? ==> |r.value| == |a|
  {
    if forall i :: 0 <= i < |a| ==> PowerDefined(a[i], b[i]) then Ok(Map2(t.power, a, b))
    else Err(FloatingPointError)
  }

  /** np.divide raises exactly when some divisor is zero; otherwise each
      quotient times its divisor gives back the dividend. */
  function Divide(a: seq<real>, b: seq<real>): (r: Result<seq<real>>)
    requires |a| == |b|
    ensures r.Err? <==> exists i :: 0 <= i < |b| && b[i] == 0.0
    ensures r.Err? ==> r.error == FloatingPointError
    ensures r.Ok? ==> |r.value| == |a| && forall i :: 0 <= i < |a| ==> r.value[i] * b[i] == a[i]
  {
    if forall i :: 0 <= i < |b| ==> DivideDefined(b[i]) then
      Ok(seq(|a|, i requires 0 <= i < |a| => a[i] / b[i]))
    else Err(FloatingPointError)
  }

  function Add(a: seq<real>, b: seq<real>): (r: seq<real>)
    requires |a| == |b|
    ensures |r| == |a| && forall i :: 0 <= i < |a| ==> r[i] == a[i] + b[i]
  {
    Map2((x, y) => x + y, a, b)
  }

  /** The difference: adding `b` back gives `a`. */
  function Subtract(a: seq<real>, b: seq<real>): (r: seq<real>)
    requires |a| == |b|
    ensures |r| == |a| && forall i :: 0 <= i < |a| ==> r[i] + b[i] == a[i]
  {
    Map2((x, y) => x - y, a, b)
  }

  function Multiply(a: seq<real>, b: seq<real>): (r: seq<real>)
    requires |a| == |b|
    ensures |r| == |a| && forall i :: 0 <= i < |a| ==> r[i] == a[i] * b[i]
  {
    Map2((x, y) => x * y, a, b)
  }

  /** `np.maximum(np.abs(a), lo)`. */
  function MaximumAbs(a: seq<real>, lo: real): seq<real> {
    seq(|a|, i requires 0 <= i < |a| => MaxReal(Abs(a[i]), lo))
  }

  /** The smallest element of a non-empty array (`x.min()`). */
  function SeqMin(x: seq<real>): (m: real)
    requires |x| > 0
    ensures forall i :: 0 <= i < |x| ==> m <= x[i]
    ensures exists i :: 0 <= i < |x| && x[i] == m
  {
    if |x| == 1 then x[0]
    else
      var rest := SeqMin(x[1..]);
      assert forall i :: 1 <= i < |x| ==> x[i] == x[1..][i - 1];
      if x[0] <= rest then x[0] else rest
  }

  /** The largest element of a non-empty array (`x.max()`). */
  function SeqMax(x: seq<real>): (m: real)
    requires |x| > 0
    ensures forall i :: 0 <= i < |x| ==> x[i] <= m
    ensures exists i :: 0 <= i < |x| && x[i] == m
  {
    if |x| == 1 then x[0]
    else
      var rest := SeqMax(x[1..]);
      assert forall i :: 1 <= i < |x| ==> x[i] == x[1..][i - 1];
      if rest <= x[0] then x[0] else rest
  }

  // Real-arithmetic facts used below, one step each.

  lemma MulDivCancel(n: real, d: real)
    requires d != 0.0
    ensures n * d / d == n && d * n / d == n
  {
  }

  lemma DivMono(p: real, q: real, d: real)
    requires d > 0.0 && p <= q
    ensures p / d <= q / d
  {
  }

  lemma MulMono(p: real, q: real, c: real)
    requires c >= 0.0 && p <= q
    ensures p * c <= q * c
  {
  }

  lemma DivMulBack(p: real, d: real, e: real)
    requires d != 0.0 && e != 0.0
    ensures (p * e / d) * d / e == p
  {
  }

  /** `np.linspace(start, stop, num)` with its default `endpoint=True`:
      `num` points spaced by `(stop - start) / (num - 1)`, the last one set
      to `stop` exactly; a single point is `start`. */
  function Linspace(start: real, stop: real, num: nat): (r: seq<real>)
    ensures |r| == num
  {
    if num <= 1 then seq(num, _ => start)
    else
      var step := (stop - start) / ((num - 1) as real);
      seq(num, k requires 0 <= k < num => if k == num - 1 then stop else start + (k as real) * step)
  }

  lemma StepTimesCount(start: real, stop: real, n: nat)
    requires n >= 1
    ensures start + (n as real) * ((stop - start) / (n as real)) == stop
  {
    var d := n as real;
    assert d * ((stop - start) / d) == stop - start;
  }

  /** Every point of `Linspace` is `start + k * step`, the last included. */
  lemma {:induction false} LinspaceClosedForm(start: real, stop: real, num: nat, k: nat)
    requires num >= 2 && k < num
    ensures Linspace(start, stop, num)[k]
            == start + (k as real) * ((stop - start) / ((num - 1) as real))
  {
    if k == num - 1 {
      StepTimesCount(start, stop, num - 1);
    }
  }

  /** Linspace starts at `start`, ends at `stop`, and consecutive points are
      exactly one step apart. */
  lemma {:induction false} LinspaceEvenlySpaced(start: real, stop: real, num: nat)
    requires num >= 2
    ensures Linspace(start, stop, num)[0] == start
    ensures Linspace(start, stop, num)[num - 1] == stop
    ensures forall k :: 0 <= k < num - 1 ==>
      Linspace(start, stop, num)[k + 1] - Linspace(start, stop, num)[k]
        == (stop - start) / ((num - 1) as real)
  {
    var l := Linspace(start, stop, num);
    var step := (stop - start) / ((num - 1) as real);
    forall k | 0 <= k < num - 1
      ensures l[k + 1] - l[k] == step
    {
      LinspaceClosedForm(start, stop, num, k);
      LinspaceClosedForm(start, stop, num, k + 1);
      assert ((k + 1) as real) * step == (k as real) * step + step;
    }
  }

  lemma StepBounds(start: real, stop: real, step: real, k: real, d: real)
    requires 0.0 <= k <= d && step >= 0.0 && start + d * step == stop
    ensures start <= start + k * step <= stop
  {
    MulMono(0.0, k, step);
    MulMono(k, d, step);
  }

  lemma LinspacePointBounds(start: real, stop: real, num: nat, k: nat)
    requires start <= stop && num >= 2 && k < num
    ensures start <= Linspace(start, stop, num)[k] <= stop
  {
    var n: nat := num - 1;
    var d := n as real;
    var step := (stop - start) / d;
    DivMono(0.0, stop - start, d);
    LinspaceClosedForm(start, stop, num, k);
    StepTimesCount(start, stop, n);
    StepBounds(start, stop, step, k as real, d);
  }

  /** When `start <= stop`, every point lies in `[start, stop]`. */
  lemma {:induction false} LinspaceBounds(start: real, stop: real, num: nat)
    requires start <= stop
    ensures AllIn(Linspace(start, stop, num), start, stop)
  {
    if num >= 2 {
      forall k | 0 <= k < num
        ensures start <= Linspace(start, stop, num)[k] <= stop
      {
        LinspacePointBounds(start, stop, num, k);
      }
    }
  }

  /** Example: `linspace(-1, 1, 4)`. */
  lemma LinspaceFour()
    ensures Linspace(-1.0, 1.0, 4) == [-1.0, -1.0 / 3.0, 1.0 / 3.0, 1.0]
  {
    var l := Linspace(-1.0, 1.0, 4);
    assert l[1] == -1.0 / 3.0;
    assert l[2] == 1.0 / 3.0;
  }
}
