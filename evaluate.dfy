/** The other half of `buildImg` (imgen.py:77): applying each operator to
    its evaluated arguments, as a fold over the tree `Builder.Build` returns;
    then the script's last steps (imgen.py:79-82): evaluate under
    `np.errstate(... 'raise')`, rescale to `[0, 255]`, cast to `uint8`. */
module Evaluate {
  import opened Outcomes
  import opened Numpy
  import opened Normalize
  import opened Image
  import opened Registry
  import opened Builder
  import SafeOps

  /** `func(*args)` for each function the table can hold. `rgb` is the draw
      of `np.random.rand(3)` that `get_rand` would make at this node. */
  function Apply(name: OpName, t: Transcendentals, rgb: Rgb, args: seq<Field>): (r: Result<Field>)
    requires |args| == Arity(name)
    requires forall i :: 0 <= i < |args| ==> Shaped(args[i])
    ensures r.Ok? ==> Shaped(r.value)
  {
    assert |args| > 0 ==> Shaped(args[0]);
    assert |args| > 1 ==> Shaped(args[1]);
    match name
    case GetRand => Ok(Image.GetRand(rgb))
    case GetX => Ok(Image.GetX())
    case GetY => Ok(Image.GetY())
    case SafeSin => Ok(SafeOps.SafeSin(t, args[0]))
    case SafeCos => Ok(SafeOps.SafeCos(t, args[0]))
    case SafeArcsin => SafeOps.SafeArcsin(t, args[0])
    case SafeArccos => SafeOps.SafeArccos(t, args[0])
    case SafeLog => SafeOps.SafeLog(t, args[0])
    case Add => Ok(Numpy.Add(args[0], args[1]))
    case Subtract => Ok(Numpy.Subtract(args[0], args[1]))
    case Multiply => Ok(Numpy.Multiply(args[0], args[1]))
    case DivAB => SafeOps.DivAB(args[0], args[1])
    case DivBA => SafeOps.DivBA(args[0], args[1])
    case SafePower => SafeOps.SafePower(t, args[0], args[1])
  }

  /** The arguments in order, or the first error among them. */
  function Collect(rs: seq<Result<Field>>): (r: Result<seq<Field>>)
    ensures r.Ok? <==> forall i :: 0 <= i < |rs| ==> rs[i].Ok?
    ensures r.Ok? ==> |r.value| == |rs| && forall i :: 0 <= i < |rs| ==> r.value[i] == rs[i].value
    ensures r.Err? ==> exists i :: 0 <= i < |rs| && rs[i] == Err(r.error) && forall j :: 0 <= j < i ==> rs[j].Ok?
  {
    if |rs| == 0 then Ok([])
    else if rs[0].Err? then Err(rs[0].error)
    else
      var rest := Collect(rs[1..]);
      assert forall i :: 1 <= i < |rs| ==> rs[i] == rs[1..][i - 1];
      if rest.Err? then
        var i :| 0 <= i < |rs| - 1 && rs[1..][i] == Err(rest.error) && forall j :: 0 <= j < i ==> rs[1..][j].Ok?;
        assert rs[i + 1] == Err(rest.error) && forall j :: 0 <= j < i + 1 ==> rs[j].Ok?;
        Err(rest.error)
      else Ok([rs[0].value] + rest.value)
  }

  /** The field a tree denotes. A node whose operator is not a row of the
      table, or whose child count is not the number of arguments its function
      is meant to take, is refused with TypeError; for the Python functions
      of imgen.py this is what the call would raise (numpy's binary functions
      would instead read a third argument as `out`, a case no table of the
      program produces). `draw` gives the `np.random.rand(3)` draw of each `get_rand`
      leaf, by position. */
  function Eval(table: seq<Entry>, t: Transcendentals, draw: Path -> Rgb, n: Node, path: Path): (r: Result<Field>)
    ensures r.Ok? ==> Shaped(r.value)
    decreases n
  {
    if n.op >= |table| || |n.children| != Arity(table[n.op].name) then Err(TypeError)
    else
      var args := seq(|n.children|, i requires 0 <= i < |n.children| =>
        Eval(table, t, draw, n.children[i], path + [i]));
      var collected := Collect(args);
      if collected.Err? then Err(collected.error)
      else Apply(table[n.op].name, t, draw(path), collected.value)
  }

  /** Every operator, given arguments of the image's shape, succeeds: the
      guarded wrappers keep np.arcsin, np.arccos, np.log, np.power and
      np.divide inside their domains. */
  lemma ApplySucceeds(name: OpName, t: Transcendentals, rgb: Rgb, args: seq<Field>)
    requires |args| == Arity(name)
    requires forall i :: 0 <= i < |args| ==> Shaped(args[i])
    ensures Apply(name, t, rgb, args).Ok?
  {
  }

  /** A well-formed tree over a table whose tags match its functions
      evaluates with no invalid-value or divide-by-zero trap and no
      TypeError. (Overflow and underflow are not modelled.) */
  lemma {:induction false} EvalSucceeds(cfg: Config, t: Transcendentals, draw: Path -> Rgb, n: Node, depth: nat, path: Path)
    requires TagsMatch(cfg.table) && WellFormed(cfg, n, depth)
    ensures Eval(cfg.table, t, draw, n, path).Ok?
    decreases n
  {
    var args := seq(|n.children|, i requires 0 <= i < |n.children| =>
      Eval(cfg.table, t, draw, n.children[i], path + [i]));
    forall i | 0 <= i < |n.children|
      ensures args[i].Ok?
    {
      EvalSucceeds(cfg, t, draw, n.children[i], depth + 1, path + [i]);
    }
    var collected := Collect(args);
    ApplySucceeds(cfg.table[n.op].name, t, draw(path), collected.value);
  }

  /** `.astype(np.uint8)` on a value already in `[0, 255]`: truncation. */
  function ToUint8(x: real): (b: int)
    requires 0.0 <= x <= 255.0
    ensures 0 <= b <= 255
    ensures b as real <= x < b as real + 1.0
  {
    x.Floor
  }

  /** The script: build and evaluate the tree, rescale the field to
      `[0, 255]` and cast it to bytes. On success the output has one byte
      per image element, each the truncation of the evaluated field's
      element rescaled to `[0, 255]`. */
  function Synthesize(cfg: Config, t: Transcendentals, choose: Path -> nat, draw: Path -> Rgb): (r: Result<seq<int>>)
    ensures r.Ok? ==> |r.value| == N && forall i :: 0 <= i < N ==> 0 <= r.value[i] <= 255
    ensures r.Ok? ==>
      var tree := Build(cfg, 0, [], choose);
      && tree.Ok?
      && Eval(cfg.table, t, draw, tree.value, []).Ok?
      && var image := ScaleRange(Eval(cfg.table, t, draw, tree.value, []).value, 0.0, 255.0);
      && forall i :: 0 <= i < N ==> r.value[i] as real <= image[i] < r.value[i] as real + 1.0
  {
    var tree := Build(cfg, 0, [], choose);
    if tree.Err? then Err(tree.error)
    else
      var field := Eval(cfg.table, t, draw, tree.value, []);
      if field.Err? then Err(field.error)
      else
        var image := ScaleRange(field.value, 0.0, 255.0);
        ScaleRangeBounds(field.value, 0.0, 255.0);
        Ok(seq(N, i requires 0 <= i < N => ToUint8(image[i])))
  }

  /** For every well-configured table whose tags match its functions, the
      script meets no invalid-value or divide-by-zero trap and no
      TypeError, whatever the random choices and draws. (Overflow and
      underflow are not modelled.) */
  lemma SynthesisSucceeds(cfg: Config, t: Transcendentals, choose: Path -> nat, draw: Path -> Rgb)
    requires ConfigOk(cfg) && TagsMatch(cfg.table)
    ensures Synthesize(cfg, t, choose, draw).Ok?
  {
    BuiltTreeShape(cfg, choose);
    EvalSucceeds(cfg, t, draw, Build(cfg, 0, [], choose).value, 0, []);
  }

  /** The program as written (its table, `depthMin = 7`, `depthMax = 20`)
      meets no invalid-value or divide-by-zero trap and no TypeError, and
      yields one byte per array element. (Overflow and underflow are not
      modelled.) */
  lemma SourceSynthesisSucceeds(t: Transcendentals, choose: Path -> nat, draw: Path -> Rgb)
    ensures Synthesize(SourceConfig, t, choose, draw).Ok?
    ensures |Synthesize(SourceConfig, t, choose, draw).value| == N
    ensures forall i :: 0 <= i < N ==> 0 <= Synthesize(SourceConfig, t, choose, draw).value[i] <= 255
  {
    SourceConfigOk();
    SynthesisSucceeds(SourceConfig, t, choose, draw);
  }
}
