/** The image grid (imgen.py:17-19, 26) and the three terminal generators
    `get_rand`, `get_x`, `get_y` (imgen.py:28-33).

    A field is numpy's `(H, W, C)` array flattened in row-major order: the
    element for row `r`, column `c` and channel `ch` sits at index
    `(r * W + c) * C + ch`. */
module Image {
  import opened Numpy

  const H: nat := 600
  const W: nat := 400
  const C: nat := 3
  const N: nat := H * W * C

  type Field = seq<real>

  /** A field of the image's shape. */
  predicate Shaped(f: Field) { |f| == N }

  function Index(r: nat, c: nat, ch: nat): (i: nat)
    requires r < H && c < W && ch < C
    ensures i < N
  {
    (r * W + c) * C + ch
  }

  function Row(i: nat): nat { i / (W * C) }

  function Col(i: nat): nat { (i / C) % W }

  function Chan(i: nat): nat { i % C }

  /** `Row`, `Col` and `Chan` recover the coordinates `Index` was built from. */
  lemma {:induction false} IndexCoordinates(r: nat, c: nat, ch: nat)
    requires r < H && c < W && ch < C
    ensures Row(Index(r, c, ch)) == r
    ensures Col(Index(r, c, ch)) == c
    ensures Chan(Index(r, c, ch)) == ch
  {
    var i := Index(r, c, ch);
    assert i == r * 1200 + c * 3 + ch;
    assert i / 3 == r * 400 + c;
    assert (r * 400 + c) % 400 == c;
    assert i / 1200 == r;
  }

  lemma {:induction false} CoordinatesInRange(i: nat)
    requires i < N
    ensures Row(i) < H && Col(i) < W && Chan(i) < C
  {
    assert i / 1200 < 600;
  }

  /** One draw of `np.random.rand(3)`: a value per channel. */
  datatype Rgb = Rgb(red: real, green: real, blue: real)

  function Channel(v: Rgb, ch: nat): real {
    if ch == 0 then v.red else if ch == 1 then v.green else v.blue
  }

  /** `np.ones_like(image) * np.random.rand(3)`: the drawn triple broadcast
      along the channel axis. */
  function GetRand(v: Rgb): (f: Field)
    ensures Shaped(f)
  {
    seq(N, i requires 0 <= i < N => Channel(v, Chan(i)))
  }

  /** `np.ones_like(image) * np.linspace(-1.0, 1.0, W).reshape(1, W, 1)`. */
  function GetX(): (f: Field)
    ensures Shaped(f)
  {
    var xs := Linspace(-1.0, 1.0, W);
    seq(N, i requires 0 <= i < N => CoordinatesInRange(i); xs[Col(i)])
  }

  /** `np.ones_like(image) * np.linspace(-1.0, 1.0, H).reshape(H, 1, 1)`. */
  function GetY(): (f: Field)
    ensures Shaped(f)
  {
    var ys := Linspace(-1.0, 1.0, H);
    seq(N, i requires 0 <= i < N => CoordinatesInRange(i); ys[Row(i)])
  }

  /** `get_rand` is the same triple at every pixel: channel `ch` of every
      pixel holds the draw's channel `ch`. */
  lemma GetRandConstantPerChannel(v: Rgb, r: nat, c: nat, ch: nat)
    requires r < H && c < W && ch < C
    ensures GetRand(v)[Index(r, c, ch)] == Channel(v, ch)
  {
    IndexCoordinates(r, c, ch);
  }

  /** `get_x` depends on the column only: column `c` holds point `c` of
      `linspace(-1, 1, W)`, whatever the row and channel. */
  lemma GetXByColumn(r: nat, c: nat, ch: nat)
    requires r < H && c < W && ch < C
    ensures GetX()[Index(r, c, ch)] == Linspace(-1.0, 1.0, W)[c]
  {
    IndexCoordinates(r, c, ch);
  }

  /** `get_y` depends on the row only: row `r` holds point `r` of
      `linspace(-1, 1, H)`, whatever the column and channel. */
  lemma GetYByRow(r: nat, c: nat, ch: nat)
    requires r < H && c < W && ch < C
    ensures GetY()[Index(r, c, ch)] == Linspace(-1.0, 1.0, H)[r]
  {
    IndexCoordinates(r, c, ch);
  }

  /** The coordinate fields run from -1 at the first column (row) to 1 at
      the last, in equal steps of `2 / (W - 1)` (`2 / (H - 1)`), and stay
      within `[-1, 1]`. */
  lemma CoordinateFieldsSpan()
    ensures GetX()[Index(0, 0, 0)] == -1.0 && GetX()[Index(0, W - 1, 0)] == 1.0
    ensures GetY()[Index(0, 0, 0)] == -1.0 && GetY()[Index(H - 1, 0, 0)] == 1.0
    ensures forall c :: 0 <= c < W - 1 ==>
      GetX()[Index(0, c + 1, 0)] - GetX()[Index(0, c, 0)] == 2.0 / ((W - 1) as real)
    ensures forall r :: 0 <= r < H - 1 ==>
      GetY()[Index(r + 1, 0, 0)] - GetY()[Index(r, 0, 0)] == 2.0 / ((H - 1) as real)
    ensures AllIn(GetX(), -1.0, 1.0) && AllIn(GetY(), -1.0, 1.0)
  {
    LinspaceEvenlySpaced(-1.0, 1.0, W);
    LinspaceEvenlySpaced(-1.0, 1.0, H);
    LinspaceBounds(-1.0, 1.0, W);
    LinspaceBounds(-1.0, 1.0, H);
    forall c | 0 <= c < W
      ensures GetX()[Index(0, c, 0)] == Linspace(-1.0, 1.0, W)[c]
    {
      GetXByColumn(0, c, 0);
    }
    forall r | 0 <= r < H
      ensures GetY()[Index(r, 0, 0)] == Linspace(-1.0, 1.0, H)[r]
    {
      GetYByRow(r, 0, 0);
    }
    forall i | 0 <= i < N
      ensures -1.0 <= GetX()[i] <= 1.0 && -1.0 <= GetY()[i] <= 1.0
    {
      CoordinatesInRange(i);
    }
  }
}
