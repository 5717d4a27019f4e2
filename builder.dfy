/** `buildImg` (imgen.py:71-77) split into its two halves: this module builds
    the expression tree it walks; evaluating the tree is `Evaluate.Eval`.

    `random.choice` becomes an oracle `choose` that is asked, at every node,
    for a number; the node's position `path` (child indices from the root)
    tells the calls apart, so any sequence of choices the program could make
    is some oracle. */
module Builder {
  import opened Outcomes
  import opened Numpy
  import opened Registry

  /** An operator (a row of the table) applied to its argument trees. */
  datatype Node = Node(op: nat, children: seq<Node>)

  type Path = seq<nat>

  /** `random.choice(funcs)`: the pick is `funcs[choose(path) % len(funcs)]`,
      so every element can be picked. An empty list raises IndexError. */
  function Build(cfg: Config, depth: nat, path: Path, choose: Path -> nat): (r: Result<Node>)
    ensures |Eligible(cfg, depth)| == 0 ==> r == Err(IndexError)
    ensures r.Ok? ==> r.value.op in Eligible(cfg, depth)
    ensures r.Ok? ==> |r.value.children| == cfg.table[r.value.op].arity
    ensures r.Err? ==> r.error == IndexError
    decreases if depth < cfg.depthMax then cfg.depthMax - depth else 0
  {
    var funcs := Eligible(cfg, depth);
    if |funcs| == 0 then Err(IndexError)
    else
      var k := funcs[choose(path) % |funcs|];
      assert k in funcs;
      var n := cfg.table[k].arity;
      var args := seq(n, i requires 0 <= i < n => Build(cfg, depth + 1, path + [i], choose));
      if forall i :: 0 <= i < n ==> args[i].Ok? then
        Ok(Node(k, seq(n, i requires 0 <= i < n => args[i].value)))
      else Err(IndexError)
  }

  /** The invariant of every tree `Build` returns, node by node: the operator
      is a row of the table, the node has as many children as the row's tag
      says, and the row was eligible at the node's depth (so no operator with
      arguments at or below `depthMax`, no terminal above `depthMin`). */
  ghost predicate WellFormed(cfg: Config, t: Node, depth: nat)
    decreases t
  {
    && t.op < |cfg.table|
    && |t.children| == cfg.table[t.op].arity
    && IsEligible(cfg, cfg.table[t.op], depth)
    && forall i :: 0 <= i < |t.children| ==> WellFormed(cfg, t.children[i], depth + 1)
  }

  /** Whatever the oracle, a tree that `Build` returns is well formed. */
  lemma {:induction false} BuildWellFormed(cfg: Config, depth: nat, path: Path, choose: Path -> nat)
    ensures Build(cfg, depth, path, choose).Ok? ==> WellFormed(cfg, Build(cfg, depth, path, choose).value, depth)
    decreases if depth < cfg.depthMax then cfg.depthMax - depth else 0
  {
    var r := Build(cfg, depth, path, choose);
    if r.Ok? {
      var t := r.value;
      var funcs := Eligible(cfg, depth);
      assert t.op in funcs;
      forall i | 0 <= i < |t.children|
        ensures WellFormed(cfg, t.children[i], depth + 1)
      {
        BuildWellFormed(cfg, depth + 1, path + [i], choose);
      }
    }
  }

  /** Under a `ConfigOk` configuration `random.choice` is never handed an
      empty list, so `Build` never fails. */
  lemma {:induction false} BuildSucceeds(cfg: Config, depth: nat, path: Path, choose: Path -> nat)
    requires ConfigOk(cfg)
    ensures Build(cfg, depth, path, choose).Ok?
    decreases if depth < cfg.depthMax then cfg.depthMax - depth else 0
  {
    EligibleAt(cfg, depth);
    var funcs := Eligible(cfg, depth);
    var k := funcs[choose(path) % |funcs|];
    assert k in funcs;
    var n := cfg.table[k].arity;
    assert n > 0 ==> depth < cfg.depthMax;
    var args := seq(n, i requires 0 <= i < n => Build(cfg, depth + 1, path + [i], choose));
    forall i | 0 <= i < n
      ensures args[i].Ok?
    {
      BuildSucceeds(cfg, depth + 1, path + [i], choose);
    }
  }

  /** The largest element, 0 for an empty sequence. */
  function MaxOf(s: seq<nat>): (m: nat)
    ensures forall i :: 0 <= i < |s| ==> s[i] <= m
    ensures |s| > 0 ==> exists i :: 0 <= i < |s| && s[i] == m
  {
    if |s| == 0 then 0
    else
      var rest := MaxOf(s[1..]);
      assert forall i :: 1 <= i < |s| ==> s[i] == s[1..][i - 1];
      if s[0] >= rest then s[0] else rest
  }

  /** The smallest element of a non-empty sequence. */
  function MinOf(s: seq<nat>): (m: nat)
    requires |s| > 0
    ensures forall i :: 0 <= i < |s| ==> m <= s[i]
    ensures exists i :: 0 <= i < |s| && s[i] == m
  {
    if |s| == 1 then s[0]
    else
      var rest := MinOf(s[1..]);
      assert forall i :: 1 <= i < |s| ==> s[i] == s[1..][i - 1];
      if s[0] <= rest then s[0] else rest
  }

  /** The length (in edges) of the longest root-to-leaf path. */
  function Height(t: Node): nat
    decreases t
  {
    if |t.children| == 0 then 0
    else 1 + MaxOf(seq(|t.children|, i requires 0 <= i < |t.children| => Height(t.children[i])))
  }

  /** The length (in edges) of the shortest root-to-leaf path. */
  function Shortest(t: Node): nat
    decreases t
  {
    if |t.children| == 0 then 0
    else 1 + MinOf(seq(|t.children|, i requires 0 <= i < |t.children| => Shortest(t.children[i])))
  }

  /** No path of a well-formed tree reaches below `depthMax` (or below its
      own depth, for a terminal placed deeper than that). */
  lemma {:induction false} HeightBound(cfg: Config, t: Node, depth: nat)
    requires WellFormed(cfg, t, depth)
    ensures depth + Height(t) <= if depth < cfg.depthMax then cfg.depthMax else depth
    decreases t
  {
    if |t.children| > 0 {
      var hs := seq(|t.children|, i requires 0 <= i < |t.children| => Height(t.children[i]));
      var j :| 0 <= j < |hs| && hs[j] == MaxOf(hs);
      HeightBound(cfg, t.children[j], depth + 1);
    }
  }

  /** Every leaf of a well-formed tree sits at depth `depthMin` or deeper. */
  lemma {:induction false} ShortestBound(cfg: Config, t: Node, depth: nat)
    requires WellFormed(cfg, t, depth)
    ensures depth + Shortest(t) >= cfg.depthMin
    decreases t
  {
    if |t.children| > 0 {
      var ss := seq(|t.children|, i requires 0 <= i < |t.children| => Shortest(t.children[i]));
      var j :| 0 <= j < |ss| && ss[j] == MinOf(ss);
      ShortestBound(cfg, t.children[j], depth + 1);
    }
  }

  lemma {:induction false} ShortestAtMostHeight(t: Node)
    ensures Shortest(t) <= Height(t)
    decreases t
  {
    if |t.children| > 0 {
      var ss := seq(|t.children|, i requires 0 <= i < |t.children| => Shortest(t.children[i]));
      var hs := seq(|t.children|, i requires 0 <= i < |t.children| => Height(t.children[i]));
      ShortestAtMostHeight(t.children[0]);
      assert MinOf(ss) <= ss[0] <= hs[0] <= MaxOf(hs);
    }
  }

  /** A path of child indices that exists in `t`. */
  predicate IsPath(t: Node, p: Path)
    decreases |p|
  {
    |p| == 0 || (p[0] < |t.children| && IsPath(t.children[p[0]], p[1..]))
  }

  /** The node at the end of a path. */
  function At(t: Node, p: Path): Node
    requires IsPath(t, p)
    decreases |p|
  {
    if |p| == 0 then t else At(t.children[p[0]], p[1..])
  }

  /** Every node of a well-formed tree is well formed at its own depth: its
      child count is its operator's tag and its operator was eligible there. */
  lemma {:induction false} NodesWellFormed(cfg: Config, t: Node, depth: nat, p: Path)
    requires WellFormed(cfg, t, depth) && IsPath(t, p)
    ensures WellFormed(cfg, At(t, p), depth + |p|)
    decreases |p|
  {
    if |p| > 0 {
      NodesWellFormed(cfg, t.children[p[0]], depth + 1, p[1..]);
    }
  }

  /** The tree `buildImg()` builds from the root: it exists, every node obeys
      the table and the depth bounds, no path is longer than `depthMax` and
      none is shorter than `depthMin`. */
  lemma BuiltTreeShape(cfg: Config, choose: Path -> nat)
    requires ConfigOk(cfg)
    ensures Build(cfg, 0, [], choose).Ok?
    ensures WellFormed(cfg, Build(cfg, 0, [], choose).value, 0)
    ensures Height(Build(cfg, 0, [], choose).value) <= cfg.depthMax
    ensures Shortest(Build(cfg, 0, [], choose).value) >= cfg.depthMin
  {
    BuildSucceeds(cfg, 0, [], choose);
    BuildWellFormed(cfg, 0, [], choose);
    var t := Build(cfg, 0, [], choose).value;
    HeightBound(cfg, t, 0);
    ShortestBound(cfg, t, 0);
  }

  /** With `depthMin = depthMax = 2`, one terminal and one binary operator,
      every tree has the binary operator at the root and every leaf at
      depth exactly 2. */
  lemma UniformDepthExample(choose: Path -> nat)
    ensures var cfg := Config([Entry(0, GetX), Entry(2, Add)], 2, 2);
      && Build(cfg, 0, [], choose).Ok?
      && Build(cfg, 0, [], choose).value.op == 1
      && Height(Build(cfg, 0, [], choose).value) == 2
      && Shortest(Build(cfg, 0, [], choose).value) == 2
  {
    var cfg := Config([Entry(0, GetX), Entry(2, Add)], 2, 2);
    assert cfg.table[0].arity == 0 && cfg.table[1].arity > 0;
    BuiltTreeShape(cfg, choose);
    var t := Build(cfg, 0, [], choose).value;
    ShortestAtMostHeight(t);
  }
}
