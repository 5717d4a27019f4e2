# imgen: a random expression-tree image generator, modelled in Dafny

`imgen.py` builds an image from a random expression tree. It works as follows:

- An operator table tags each function with its number of arguments. There are
  three terminals (`get_rand`, `get_x`, `get_y`), unary operators (`safe_sin`,
  `safe_cos`, `safe_arcsin`, `safe_arccos`) and binary operators (`np.add`,
  `np.subtract`, `np.multiply`, `safe_power`).
- `buildImg` picks an operator at random among those eligible at the current
  depth. An operator with arguments is eligible below `depthMax = 20`. A
  terminal is eligible from `depthMin = 7` on.
- It then builds the arguments one level deeper and applies the operator to
  them.
- The "safe" wrappers condition each operator's arguments so that, under
  `np.errstate(... 'raise')`, no operator meets an argument outside its domain.
  Most of them rescale with `scale_range`. The division and logarithm wrappers
  push magnitudes away from zero.
- The evaluated field is rescaled to `[0, 255]` and cast to bytes.

The model is pure, as the script is:

- A field is a flat `seq<real>` of the image's `600 x 400 x 3` elements in
  row-major order (`Image`).
- numpy's element-wise operations are modelled in `Numpy`. Each partial
  operation returns `Err(FloatingPointError)` when an element lies outside its
  domain.
- `scale_range` is modelled in `Normalize` and the wrappers in `SafeOps`.
- The table and its eligibility filter are modelled in `Registry`.
- `buildImg` is split into two parts:
  - building the tree, in `Builder`;
  - a fold that evaluates it, in `Evaluate`.
- `random.choice` and `np.random.rand(3)` become oracles, functions of the
  node's position in the tree. Any run of the program is therefore some choice
  of oracles, and the same oracles always give the same tree.

The script calls `exit()` at imgen.py:15, before the generator is defined.
The model describes the generator as written at imgen.py:17-82, as if that
call were not there.

The wrappers condition their inputs only: their outputs are passed to the
parent node as they are, without a further rescale. `scale_range` rescales
between the field's literal minimum and maximum. `random.choice` picks
uniformly among the eligible rows; the oracle covers every pick.

## Model

| member | source | states |
|---|---|---|
| `Numpy.Linspace` | imgen.py:30-33 | `linspace(start, stop, num)` has `num` points; their values are given by `LinspaceClosedForm`, `LinspaceEvenlySpaced` and `LinspaceBounds` |
| `Numpy.Arcsin` | imgen.py:40-41 | under `np.errstate(invalid='raise')`, `np.arcsin` raises `FloatingPointError` exactly when some element lies outside `[-1, 1]`, and otherwise keeps the shape |
| `Numpy.Arccos` | imgen.py:42-43 | `np.arccos` raises `FloatingPointError` exactly when some element lies outside `[-1, 1]`, and otherwise keeps the shape |
| `Numpy.Log` | imgen.py:38-39 | `np.log` raises `FloatingPointError` exactly when some element is zero or negative, and otherwise keeps the shape |
| `Numpy.Power` | imgen.py:44-45 | `np.power` raises `FloatingPointError` exactly when some base is zero under a negative exponent or negative under a non-integral one, and otherwise keeps the shape |
| `Numpy.Divide` | imgen.py:34-37 | `np.divide` raises `FloatingPointError` exactly when some divisor is zero; otherwise each quotient times its divisor is the dividend |
| `Numpy.Add` | imgen.py:61 | `np.add` is the element-wise sum, same shape |
| `Numpy.Subtract` | imgen.py:62 | `np.subtract` keeps the shape, and adding `b` back to the result gives `a` |
| `Numpy.Multiply` | imgen.py:63 | `np.multiply` is the element-wise product, same shape |
| `Numpy.SeqMin` | imgen.py:22 | `x.min()` is at most every element and is one of them |
| `Numpy.SeqMax` | imgen.py:22 | `x.max()` is at least every element and is one of them |
| `Numpy.LinspaceClosedForm` | imgen.py:30-33 | point `k` of `linspace(start, stop, num)` is `start + k * (stop - start) / (num - 1)`, the forced last point included |
| `Numpy.LinspaceEvenlySpaced` | imgen.py:30-33 | linspace starts at `start`, ends at `stop`, and consecutive points differ by exactly one step |
| `Numpy.LinspacePointBounds` | imgen.py:30-33 | for `start <= stop` each point lies in `[start, stop]` |
| `Numpy.LinspaceBounds` | imgen.py:30-33 | for `start <= stop` the whole grid lies in `[start, stop]` |
| `Numpy.LinspaceFour` | imgen.py:31 | `linspace(-1, 1, 4)` is `[-1, -1/3, 1/3, 1]` |
| `Normalize.Spread` | imgen.py:22 | the spread `x.max() - x.min()` the degenerate test uses is never negative |
| `Normalize.ScaleRange` | imgen.py:21-24 | the output has the input's shape |
| `Normalize.ScaleRangeDegenerate` | imgen.py:22-23 | a field whose spread is below 0.001 maps to the midpoint `(a + b) / 2` everywhere |
| `Normalize.Interp` | imgen.py:24 | `np.interp` of one point of `[lo, hi]` (the only points `scale_range` passes) between `(lo, hi)` and `(a, b)`; no contract of its own, its meaning is carried by `InterpBounds`, `InterpMonotone`, `InterpStrict`, `InterpAtEnds` and `InterpInverse` |
| `Normalize.InterpBounds` | imgen.py:24 | `np.interp` of a point in `[lo, hi]` onto `[a, b]` lies in `[a, b]` |
| `Normalize.InterpMonotone` | imgen.py:24 | on `[lo, hi]` the interpolation is monotone for `a <= b` |
| `Normalize.InterpStrict` | imgen.py:24 | on `[lo, hi]` the interpolation is strictly increasing for `a < b` |
| `Normalize.InterpAtEnds` | imgen.py:24 | `lo` maps to `a` and `hi` maps to `b` |
| `Normalize.InterpInverse` | imgen.py:24 | on `[lo, hi]` the interpolation is undone by the inverse linear map for `a < b` |
| `Normalize.ScaleRangeBounds` | imgen.py:21-24 | for `a <= b` every output element lies in `[a, b]`, in both branches |
| `Normalize.ScaleRangeEndpoints` | imgen.py:24 | outside the degenerate case, elements equal to the minimum map to `a` and elements equal to the maximum map to `b`, and both values occur |
| `Normalize.ScaleRangeMonotone` | imgen.py:21-24 | for `a <= b`, `x[i] <= x[j]` implies `out[i] <= out[j]` |
| `Normalize.ScaleRangeInvertible` | imgen.py:24 | outside the degenerate case with `a < b`, each input element is recovered from its image |
| `Normalize.ScaleRangeOrderIff` | imgen.py:24 | outside the degenerate case with `a < b`, `out[i] <= out[j]` holds exactly when `x[i] <= x[j]` |
| `Normalize.ScaleRangeConstantExample` | imgen.py:22-23 | a constant field `[5, 5, 5, 5]` rescaled to `[0, 1]` is all `0.5` |
| `Image.Index` | imgen.py:26 | a (row, column, channel) position of the `(H, W, C)` image is an index below `H * W * C` |
| `Image.IndexCoordinates` | imgen.py:26 | row, column and channel are recovered from the flat index |
| `Image.CoordinatesInRange` | imgen.py:26 | every flat index decodes to a position inside the image |
| `Image.GetRand` | imgen.py:28-29 | `get_rand` returns a field of the image's shape |
| `Image.GetX` | imgen.py:30-31 | `get_x` returns a field of the image's shape |
| `Image.GetY` | imgen.py:32-33 | `get_y` returns a field of the image's shape |
| `Image.GetRandConstantPerChannel` | imgen.py:28-29 | every pixel of `get_rand` holds the same drawn triple, channel by channel |
| `Image.GetXByColumn` | imgen.py:30-31 | `get_x` at column `c` is point `c` of `linspace(-1, 1, W)`, whatever the row and channel |
| `Image.GetYByRow` | imgen.py:32-33 | `get_y` at row `r` is point `r` of `linspace(-1, 1, H)`, whatever the column and channel |
| `Image.CoordinateFieldsSpan` | imgen.py:30-33 | `get_x` and `get_y` run from -1 at the first column or row to 1 at the last, in equal steps of `2 / (W - 1)` and `2 / (H - 1)`, and stay in `[-1, 1]` |
| `SafeOps.Guarded` | imgen.py:34-39 | `np.maximum(np.abs(a), 0.001)` is at least 0.001 everywhere and equals `abs(a)` wherever that is already at least 0.001 |
| `SafeOps.TrigArgument` | imgen.py:46-49 | the argument `safe_sin` and `safe_cos` pass on lies in `[-5, 5]` |
| `SafeOps.UnitArgument` | imgen.py:40-43 | the argument `safe_arcsin` and `safe_arccos` pass on lies in `[-1, 1]` |
| `SafeOps.PowerArgument` | imgen.py:44-45 | the base and exponent `safe_power` passes on lie in `[0.001, 1]` |
| `SafeOps.DivAB` | imgen.py:34-35 | `div_ab` never raises, and the quotient times the guarded divisor is `a` |
| `SafeOps.DivBA` | imgen.py:36-37 | `div_ba` never raises, and the quotient times the guarded divisor is `b` |
| `SafeOps.SafeLog` | imgen.py:38-39 | `safe_log` never raises and keeps the shape |
| `SafeOps.SafeSin` | imgen.py:46-47 | `safe_sin` keeps the shape |
| `SafeOps.SafeCos` | imgen.py:48-49 | `safe_cos` keeps the shape |
| `SafeOps.SafeArcsin` | imgen.py:40-41 | `safe_arcsin` never raises, whatever its input's range, and keeps the shape |
| `SafeOps.SafeArccos` | imgen.py:42-43 | `safe_arccos` never raises, whatever its input's range, and keeps the shape |
| `SafeOps.SafePower` | imgen.py:44-45 | `safe_power` never raises, whatever its inputs' ranges, and keeps the shape |
| `SafeOps.UnguardedArcsinRaises` | imgen.py:40-41 | the guard is needed: raw `np.arcsin` raises on `[2]`, where `safe_arcsin` does not |
| `SafeOps.UnguardedLogAndDivideRaise` | imgen.py:34-39 | the guards are needed: raw `np.log` raises on `[0]` and raw `np.divide` raises on a zero divisor, where `safe_log` and `div_ab` do not |
| `Registry.IsEligible` | imgen.py:72-74 | the filter of one row at one depth; no contract of its own, `Eligible` states that exactly the rows it accepts are offered to `random.choice` |
| `Registry.EligibleFrom` | imgen.py:72-74 | the rows from position `k` on that pass the depth filter, each once, in table order |
| `Registry.Eligible` | imgen.py:72-74 | a row is in the list exactly when (it has arguments and `depth < depthMax`) or (it is a terminal and `depth >= depthMin`); the list is in table order without repeats |
| `Registry.EligibleNonEmptyIff` | imgen.py:53-75 | the eligible list is non-empty at every depth exactly when the table has a terminal and, unless `depthMin = 0`, an operator with arguments and `depthMin <= depthMax` |
| `Registry.EligibleAt` | imgen.py:72-75 | under that condition `random.choice` is never handed an empty list |
| `Registry.SourceConfigOk` | imgen.py:53-69 | the table as written (the constants `Registry.SourceTable` and `Registry.SourceConfig`: eleven rows in source order, `depthMin = 7`, `depthMax = 20`) tags each function with its argument count, and meets the condition since `7 <= 20` |
| `Builder.Build` | imgen.py:71-76 | an empty eligible list raises `IndexError` (the only error it can return); a built node's operator is one of the rows eligible at its depth and it has as many children as that row's tag |
| `Builder.BuildWellFormed` | imgen.py:71-76 | whatever the choices, every node of a built tree is a row of the table, has as many children as its tag, and was eligible at its depth |
| `Builder.BuildSucceeds` | imgen.py:71-76 | under a well-configured table the builder never meets an empty choice |
| `Builder.HeightBound` | imgen.py:71-76 | no path of a well-formed tree goes below `depthMax` |
| `Builder.ShortestBound` | imgen.py:73-76 | every leaf of a well-formed tree is at depth `depthMin` or more |
| `Builder.NodesWellFormed` | imgen.py:71-76 | every node of a well-formed tree, at any path, is well formed at its own depth, so no node with arguments is at depth `depthMax` or below |
| `Builder.BuiltTreeShape` | imgen.py:71-76 | the tree built from the root exists, is well formed, has height at most `depthMax`, and has every root-to-leaf path at least `depthMin` long |
| `Builder.UniformDepthExample` | imgen.py:71-76 | with one terminal, one binary operator and `depthMin = depthMax = 2`, the root is the operator and every leaf is at depth exactly 2 |
| `Evaluate.Apply` | imgen.py:77 | applying a table function to arguments of the image's shape gives a field of the image's shape, if it succeeds |
| `Evaluate.Collect` | imgen.py:76 | the argument list succeeds exactly when every argument does, and then holds their values in order; otherwise its error is that of the first argument that failed, as the left-to-right list comprehension gives |
| `Evaluate.Eval` | imgen.py:76-77 | the value of a tree, when there is one, has the image's shape |
| `Evaluate.ApplySucceeds` | imgen.py:34-49 | every table function applied to arguments of the image's shape succeeds: no invalid-value or divide-by-zero trap fires |
| `Evaluate.EvalSucceeds` | imgen.py:76-80 | a well-formed tree over a consistently tagged table evaluates with no invalid-value or divide-by-zero trap and no `TypeError` |
| `Evaluate.ToUint8` | imgen.py:82 | `.astype(np.uint8)` of a value in `[0, 255]` is its truncation, a byte |
| `Evaluate.Synthesize` | imgen.py:79-82 | when the script completes, its output has one value in `[0, 255]` per image element, and each is the truncation of the evaluated field's element after rescaling to `[0, 255]` |
| `Evaluate.SynthesisSucceeds` | imgen.py:79-82 | for every well-configured, consistently tagged table, the script meets no invalid-value or divide-by-zero trap and no `TypeError`, whatever the random choices and draws |
| `Evaluate.SourceSynthesisSucceeds` | imgen.py:53-82 | with the table and depths as written, the script meets no invalid-value or divide-by-zero trap and no `TypeError`, whatever the random choices and draws, and yields one value in `[0, 255]` per image element |

## Left out

- `app.py` is not part of this model. It holds the web routes, the socket handlers and the shader text generator, which are network transport and fixed template text filled with random numbers.
- The `Polynomial.fromroots` experiment, its `print` and the `exit()` at imgen.py:6-15 are left out: it calls library code that is not part of this model. The model describes the code after it.
- The values of `np.sin`, `np.cos`, `np.arcsin`, `np.arccos`, `np.log` and `np.power` are left out. They are arbitrary functions passed as a parameter, since only the domains of their arguments matter here.
- `np.add`, `np.subtract`, `np.multiply` and `np.divide` are exact real arithmetic. Floating-point rounding is not modelled.
- Evaluate.SourceSynthesisSucceeds: the `over` and `under` traps of `np.errstate` are not modelled, so this lemma says that no invalid-operation or divide-by-zero trap fires, not that no trap fires. With exact reals there is no overflow or underflow. In floating point, a deep chain of `np.multiply` nodes can overflow or underflow, and the script would then raise.
- Evaluate.SynthesisSucceeds: weaker in the same way as `SourceSynthesisSucceeds`, for the same reason.
- Evaluate.EvalSucceeds: weaker in the same way: it excludes the invalid-value and divide-by-zero traps and `TypeError`, not the overflow and underflow traps, which exact reals cannot model.
- Evaluate.ApplySucceeds: weaker in the same way: `np.add`, `np.subtract` and `np.multiply` are exact and never trap in the model, while in floating point they can overflow or underflow.
- `.astype(np.uint8)` is modelled only on values in `[0, 255]`, the only values the final rescale produces.
- `imsave` and the commented-out viewer (imgen.py:83-86) are file and display output, left out.
- The distributions of `random.choice` and `np.random.rand(3)` are not modelled. Both are replaced by oracles keyed by a node's position in the tree, so the properties hold for every possible sequence of draws.
- `polynomial` (imgen.py:50-51) is an empty stub that is not in the table. It is left out.
- `safe_log`, `div_ab` and `div_ba` are commented out of the table (imgen.py:60, 64-65). They are modelled as wrappers and `Evaluate.Apply` can apply them, but `Registry.SourceTable` leaves them out, as the code does.
- The inline range comments of the table (imgen.py:53-66) are not stated as properties, because some of them are wrong: `get_x` spans `[-1, 1]`, not `[0, 1]`.
- Normalize.ScaleRange requires a non-empty field, because `x.min()` raises on an empty array. Every field of the image has `600 x 400 x 3` elements.
- `np.interp` clamps points outside `[lo, hi]` to `a` or `b`. That clamping is not modelled, because `scale_range` only passes points between the field's own minimum and maximum.
- numpy broadcasting in general is not modelled. Only the broadcasts the generators use are modelled: a value per channel for `get_rand`, per column for `get_x`, per row for `get_y`.
- The interleaving of building and evaluating in `buildImg` is not modelled. The source evaluates each argument as soon as it is built, while the model builds the whole tree first and then evaluates it. The two differ only in which error would surface first, and neither can raise under the conditions proved.
