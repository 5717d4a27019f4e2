/** The operator table `functions` with `depthMin` / `depthMax`
    (imgen.py:53-69) and the eligibility filter of `buildImg`
    (imgen.py:72-74). */
module Registry {

  /** The Python functions the table can hold. */
  datatype OpName =
    | GetRand | GetX | GetY
    | SafeSin | SafeCos | SafeArcsin | SafeArccos | SafeLog
    | Add | Subtract | Multiply | DivAB | DivBA | SafePower

  /** How many positional arguments each function takes. */
  function Arity(name: OpName): nat {
    match name
    case GetRand | GetX | GetY => 0
    case SafeSin | SafeCos | SafeArcsin | SafeArccos | SafeLog => 1
    case Add | Subtract | Multiply | DivAB | DivBA | SafePower => 2
  }

  /** A table row `(nArgs, func)`. */
  datatype Entry = Entry(arity: nat, name: OpName)

  datatype Config = Config(table: seq<Entry>, depthMin: nat, depthMax: nat)

  /** The table as written: `safe_log`, `div_ab` and `div_ba` are commented
      out of it. */
  const SourceTable: seq<Entry> := [
    Entry(0, GetRand), Entry(0, GetX), Entry(0, GetY),
    Entry(1, SafeSin), Entry(1, SafeCos), Entry(1, SafeArcsin), Entry(1, SafeArccos),
    Entry(2, Add), Entry(2, Subtract), Entry(2, Multiply), Entry(2, SafePower)
  ]

  const SourceConfig: Config := Config(SourceTable, 7, 20)

  /** Every row's tag is the number of arguments its function takes. */
  predicate TagsMatch(table: seq<Entry>) {
    forall k :: 0 <= k < |table| ==> table[k].arity == Arity(table[k].name)
  }

  /** The filter of `buildImg`: operators with arguments while the depth is
      below `depthMax`, terminals once it has reached `depthMin`. */
  predicate IsEligible(cfg: Config, e: Entry, depth: nat) {
    (e.arity > 0 && depth < cfg.depthMax) || (e.arity == 0 && depth >= cfg.depthMin)
  }

  predicate StrictlyIncreasing(s: seq<nat>) {
    forall i, j :: 0 <= i < j < |s| ==> s[i] < s[j]
  }

  /** Positions `k..` of the table that pass the filter, in table order. */
  function EligibleFrom(cfg: Config, depth: nat, k: nat): (r: seq<nat>)
    requires k <= |cfg.table|
    ensures forall j :: j in r <==> k <= j < |cfg.table| && IsEligible(cfg, cfg.table[j], depth)
    ensures StrictlyIncreasing(r)
    decreases |cfg.table| - k
  {
    if k == |cfg.table| then []
    else
      var rest := EligibleFrom(cfg, depth, k + 1);
      if IsEligible(cfg, cfg.table[k], depth) then
        assert forall i :: 0 <= i < |rest| ==> rest[i] in rest;
        [k] + rest
      else rest
  }

  /** The list comprehension of `buildImg`, as table positions: exactly the
      eligible rows, each once, in table order. */
  function Eligible(cfg: Config, depth: nat): (r: seq<nat>)
    ensures forall j :: j in r <==> 0 <= j < |cfg.table| && IsEligible(cfg, cfg.table[j], depth)
    ensures StrictlyIncreasing(r)
  {
    EligibleFrom(cfg, depth, 0)
  }

  predicate HasLeaf(table: seq<Entry>) {
    exists k :: 0 <= k < |table| && table[k].arity == 0
  }

  predicate HasInner(table: seq<Entry>) {
    exists k :: 0 <= k < |table| && table[k].arity > 0
  }

  /** The configurations under which `random.choice` never meets an empty
      list: a terminal is always needed (deep enough, only terminals are
      eligible), and unless terminals are eligible from the root, an
      operator with arguments must carry the depth up to `depthMin`. */
  predicate ConfigOk(cfg: Config) {
    HasLeaf(cfg.table)
    && (cfg.depthMin == 0 || (HasInner(cfg.table) && cfg.depthMin <= cfg.depthMax))
  }

  /** The eligible list is non-empty at every depth exactly when the
      configuration is `ConfigOk`. */
  lemma EligibleNonEmptyIff(cfg: Config)
    ensures (forall d: nat :: |Eligible(cfg, d)| > 0) <==> ConfigOk(cfg)
  {
    if forall d: nat :: |Eligible(cfg, d)| > 0 {
      var deep := cfg.depthMin + cfg.depthMax;
      var k := Eligible(cfg, deep)[0];
      assert k in Eligible(cfg, deep);
      assert cfg.table[k].arity == 0;
      if cfg.depthMin > 0 {
        var k' := Eligible(cfg, cfg.depthMin - 1)[0];
        assert k' in Eligible(cfg, cfg.depthMin - 1);
        assert cfg.table[k'].arity > 0;
      }
    }
    if ConfigOk(cfg) {
      forall d: nat
        ensures |Eligible(cfg, d)| > 0
      {
        EligibleAt(cfg, d);
      }
    }
  }

  lemma EligibleAt(cfg: Config, d: nat)
    requires ConfigOk(cfg)
    ensures |Eligible(cfg, d)| > 0
  {
    if d >= cfg.depthMin {
      var k :| 0 <= k < |cfg.table| && cfg.table[k].arity == 0;
      assert k in Eligible(cfg, d);
    } else {
      var k :| 0 <= k < |cfg.table| && cfg.table[k].arity > 0;
      assert k in Eligible(cfg, d);
    }
  }

  /** The table as written is consistent and well configured (7 <= 20). */
  lemma SourceConfigOk()
    ensures TagsMatch(SourceTable)
    ensures ConfigOk(SourceConfig)
  {
    assert SourceTable[0].arity == 0;
    assert SourceTable[3].arity > 0;
  }
}
