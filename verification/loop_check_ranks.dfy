/**
  What a passed loop check is worth in a configuration without choices: some ranking stratifies the
  configuration, so that all values are determined, exactly if the check also passes when the tristate
  symbols count as dependents of MODULES, which decides how they act.
  */
module LoopCheckRanks {
  import opened Basics
  import opened KconfigModel
  import opened KconfigSupport
  import opened LoopCheck

  predicate IsTristate(cfg: Config, i: nat) { cfg.At(i).Symbol? && cfg.At(i).typ == Tristate }

  /** The dependents of every item, with the tristate symbols among those of MODULES if it is defined. */
  function WithModules(cfg: Config): (g: Graph)
    ensures |g| == |cfg.items| && Closed(g)
    ensures forall i, j :: 0 <= i < |cfg.items| && 0 <= j < |cfg.items| ==>
              (Edge(g, j, i) <==> !cfg.At(j).Const? && (j in DependsOn(cfg, i) || (j == cfg.modules && IsTristate(cfg, i))))
  {
    var g, m := Dependents(cfg), cfg.modules;
    if m >= |g| || cfg.At(m).Const? then g else g[m := g[m] + set i | 0 <= i < |cfg.items| && IsTristate(cfg, i)]
  }

  /** No choices; everything mentioned exists; defaults of strings and numbers are symbols. */
  ghost predicate Plain(cfg: Config) {
    && cfg.modules < |cfg.items|
    && forall i :: 0 <= i < |cfg.items| ==> PlainItem(cfg, i)
  }

  ghost predicate PlainItem(cfg: Config, i: nat) {
    var it := cfg.At(i);
    && !it.Choice? && (forall j :: j in DependsOn(cfg, i) ==> j < |cfg.items|)
    && (it.Symbol? ==>
          && it.choice.None?
          && (!IsBoolTri(it.typ) ==> forall k :: 0 <= k < |it.defaults| ==> it.defaults[k].value.Ref?))
  }

  ghost function RankOf(cfg: Config, order: seq<nat>, i: nat): nat {
    if cfg.At(i).Const? || i !in order then 0 else 1 + |order| - Position(order, i)
  }

  ghost function Ranks(cfg: Config, order: seq<nat>): (r: seq<nat>)
    ensures |r| == |cfg.items| && forall i :: 0 <= i < |r| ==> r[i] == RankOf(cfg, order, i)
  {
    seq(|cfg.items|, i requires 0 <= i => RankOf(cfg, order, i))
  }

  /** The ranks of everything `i` mentions are lower. */
  ghost predicate AboveAll(cfg: Config, i: nat, js: set<nat>) {
    forall j :: j in js ==> j < |cfg.items| && !cfg.At(j).Choice? && cfg.Rank(j) < cfg.Rank(i)
  }

  lemma {:induction false} ExprIsBelow(cfg: Config, e: Expr, i: nat)
    requires AboveAll(cfg, i, ExprItems(e))
    ensures ExprBelow(cfg, e, i)
  {
    match e
    case Ref(_) =>
    case And(a, b) =>
      ExprIsBelow(cfg, a, i);
      ExprIsBelow(cfg, b, i);
    case Or(a, b) =>
      ExprIsBelow(cfg, a, i);
      ExprIsBelow(cfg, b, i);
    case Not(a) => ExprIsBelow(cfg, a, i);
    case Rel(_, a, b) => assert a in ExprItems(e) && b in ExprItems(e);
  }

  lemma {:induction false} ItemsAreBelow(cfg: Config, i: nat, es: seq<Expr>)
    requires AboveAll(cfg, i, ItemsOf(es))
    ensures forall e :: e in es ==> ExprBelow(cfg, e, i)
    ensures forall e :: e in es && e.Ref? ==> OperandBelow(cfg, e.item, i)
  {
    forall e | e in es ensures ExprBelow(cfg, e, i) && (e.Ref? ==> OperandBelow(cfg, e.item, i)) {
      var k :| 0 <= k < |es| && es[k] == e;
      assert ExprItems(es[k]) <= ItemsOf(es);
      ExprIsBelow(cfg, e, i);
    }
  }

  lemma {:induction false} SymbolIsBelow(cfg: Config, i: nat)
    requires cfg.At(i).Symbol? && PlainItem(cfg, i) && AboveAll(cfg, i, DependsOn(cfg, i))
    ensures SymbolBelow(cfg, i)
  {
    hide ItemsOf, DefaultExprs, RangeExprs, ExprItems, ExprBelow, OperandBelow;
    var it := cfg.At(i);
    ItemsAreBelow(cfg, i, it.prompts);
    ItemsAreBelow(cfg, i, DefaultExprs(it.defaults));
    ItemsAreBelow(cfg, i, RangeExprs(it.ranges));
    ExprIsBelow(cfg, it.revDep, i);
    ExprIsBelow(cfg, it.weakRevDep, i);
    ExprIsBelow(cfg, it.directDep, i);
    forall k | 0 <= k < |it.ranges|
      ensures OperandBelow(cfg, it.ranges[k].low, i) && OperandBelow(cfg, it.ranges[k].high, i) && ExprBelow(cfg, it.ranges[k].cond, i)
    {
      assert it.ranges[k] in it.ranges;
      var lo, hi := Ref(it.ranges[k].low), Ref(it.ranges[k].high);
      assert lo in RangeExprs(it.ranges) && hi in RangeExprs(it.ranges);
    }
    forall k | 0 <= k < |it.defaults|
      ensures ExprBelow(cfg, it.defaults[k].value, i) && ExprBelow(cfg, it.defaults[k].cond, i)
      ensures it.defaults[k].value.Ref? ==> OperandBelow(cfg, it.defaults[k].value.item, i)
    {
      assert it.defaults[k] in it.defaults;
    }
  }

  /** The order in which a search over the dependents, those of MODULES included, finishes ranks the configuration. */
  lemma {:induction false} FinishedStratifies(cfg: Config, order: seq<nat>)
    requires Plain(cfg) && Finished(WithModules(cfg), order) && forall s :: 0 <= s < |cfg.items| ==> s in order
    ensures WellFormed(cfg.(rank := Ranks(cfg, order)))
  {
    hide SymbolBelow, DependsOn;
    var ranked := cfg.(rank := Ranks(cfg, order));
    forall i | 0 <= i < |cfg.items| ensures ItemWellFormed(ranked, i) {
      SameDependencies(cfg, ranked.rank, i);
      assert PlainItem(cfg, i);
      if cfg.At(i).Symbol? {
        forall j | j in DependsOn(cfg, i) || (j == cfg.modules && IsTristate(cfg, i))
          ensures j < |cfg.items| && !cfg.At(j).Choice? && ranked.Rank(j) < ranked.Rank(i)
        {
          assert PlainItem(cfg, j);
          if !cfg.At(j).Const? { EdgeFinished(WithModules(cfg), order, j, i); }
        }
        SymbolIsBelow(ranked, i);
      }
    }
    assert PlainItem(cfg, cfg.modules);
  }

  lemma {:induction false} SameDependencies(cfg: Config, rank: seq<nat>, i: nat)
    ensures cfg.(rank := rank).At(i) == cfg.At(i) && DependsOn(cfg.(rank := rank), i) == DependsOn(cfg, i)
  {
  }

  // ---------------------------------------------------------------------------------------------
  // The other direction: in a stratified configuration every dependent ranks higher

  /** Everything in `js` ranks below `i`. */
  ghost predicate RanksBelow(cfg: Config, i: nat, js: set<nat>) {
    forall j :: j in js ==> cfg.Rank(j) < cfg.Rank(i)
  }

  lemma {:induction false} BelowExpr(cfg: Config, e: Expr, i: nat)
    requires ExprBelow(cfg, e, i) && cfg.At(i).Symbol? && cfg.At(i).choice.None?
    ensures RanksBelow(cfg, i, ExprItems(e))
  {
    match e
    case Ref(_) =>
    case And(a, b) =>
      BelowExpr(cfg, a, i);
      BelowExpr(cfg, b, i);
    case Or(a, b) =>
      BelowExpr(cfg, a, i);
      BelowExpr(cfg, b, i);
    case Not(a) => BelowExpr(cfg, a, i);
    case Rel(_, _, _) =>
  }

  lemma {:induction false} BelowItems(cfg: Config, es: seq<Expr>, i: nat)
    requires cfg.At(i).Symbol? && cfg.At(i).choice.None? && forall k :: 0 <= k < |es| ==> ExprBelow(cfg, es[k], i)
    ensures RanksBelow(cfg, i, ItemsOf(es))
  {
    if es != [] {
      BelowItems(cfg, es[..|es| - 1], i);
      BelowExpr(cfg, es[|es| - 1], i);
    }
  }

  lemma {:induction false} BelowDefaults(cfg: Config, ds: seq<Default>, i: nat)
    requires forall k :: 0 <= k < |ds| ==> ExprBelow(cfg, ds[k].value, i) && ExprBelow(cfg, ds[k].cond, i)
    ensures forall k :: 0 <= k < |DefaultExprs(ds)| ==> ExprBelow(cfg, DefaultExprs(ds)[k], i)
  {
    hide ExprBelow;
    if ds != [] { BelowDefaults(cfg, ds[1..], i); }
  }

  lemma {:induction false} BelowRanges(cfg: Config, rs: seq<Range>, i: nat)
    requires forall k :: 0 <= k < |rs| ==>
               OperandBelow(cfg, rs[k].low, i) && OperandBelow(cfg, rs[k].high, i) && ExprBelow(cfg, rs[k].cond, i)
    ensures forall k :: 0 <= k < |RangeExprs(rs)| ==> ExprBelow(cfg, RangeExprs(rs)[k], i)
  {
    if rs != [] {
      BelowRanges(cfg, rs[1..], i);
      var lo, hi := Ref(rs[0].low), Ref(rs[0].high);
      assert ExprBelow(cfg, lo, i) && ExprBelow(cfg, hi, i);
    }
  }

  lemma {:induction false} DependencyRanks(cfg: Config, i: nat)
    requires WellFormed(cfg) && i < |cfg.items| && PlainItem(cfg, i)
    ensures RanksBelow(cfg, i, DependsOn(cfg, i))
  {
    hide ItemsOf, DefaultExprs, RangeExprs, ExprItems, ExprBelow, OperandBelow;
    assert ItemWellFormed(cfg, i);
    var it := cfg.At(i);
    if it.Symbol? {
      BelowItems(cfg, it.prompts, i);
      BelowDefaults(cfg, it.defaults, i);
      BelowItems(cfg, DefaultExprs(it.defaults), i);
      BelowRanges(cfg, it.ranges, i);
      BelowItems(cfg, RangeExprs(it.ranges), i);
      BelowExpr(cfg, it.revDep, i);
      BelowExpr(cfg, it.weakRevDep, i);
      BelowExpr(cfg, it.directDep, i);
    }
  }

  lemma {:induction false} EdgeRanks(cfg: Config, j: nat, i: nat)
    requires WellFormed(cfg) && Plain(cfg) && Edge(WithModules(cfg), j, i)
    ensures cfg.Rank(j) < cfg.Rank(i)
  {
    hide DependsOn, SymbolBelow;
    assert i < |cfg.items|;
    assert PlainItem(cfg, i) && ItemWellFormed(cfg, i);
    DependencyRanks(cfg, i);
  }

  lemma {:induction false} LoopSinks(cfg: Config, l: seq<nat>, k: nat)
    requires WellFormed(cfg) && Plain(cfg) && Loop(WithModules(cfg), l) && k < |l|
    ensures cfg.Rank(l[k]) <= cfg.Rank(l[0])
  {
    hide WellFormed, Plain, WithModules;
    if k > 0 {
      LoopSinks(cfg, l, k - 1);
      EdgeRanks(cfg, l[k], l[k - 1]);
    }
  }

  lemma {:induction false} StratifiedHasNoLoop(cfg: Config, l: seq<nat>)
    requires WellFormed(cfg) && Plain(cfg)
    ensures !Loop(WithModules(cfg), l)
  {
    hide WellFormed, Plain, WithModules;
    if Loop(WithModules(cfg), l) {
      var first, last := l[0], l[|l| - 1];
      LoopSinks(cfg, l, |l| - 1);
      EdgeRanks(cfg, first, last);
    }
  }

  lemma {:induction false} SameGraph(cfg: Config, rank: seq<nat>)
    requires Plain(cfg)
    ensures WithModules(cfg.(rank := rank)) == WithModules(cfg) && Plain(cfg.(rank := rank))
  {
    hide DependsOn;
    var ranked := cfg.(rank := rank);
    forall i: nat ensures ranked.At(i) == cfg.At(i) && DependsOn(ranked, i) == DependsOn(cfg, i) {
      SameDependencies(cfg, rank, i);
    }
    forall i | 0 <= i < |cfg.items| ensures PlainItem(ranked, i) {
      assert PlainItem(cfg, i);
    }
    SameEdges(WithModules(ranked), WithModules(cfg));
  }

  /** Graphs are equal when their edges are. */
  lemma {:induction false} SameEdges(g: Graph, h: Graph)
    requires |g| == |h| && Closed(g) && Closed(h)
    requires forall a, b :: 0 <= a < |g| && 0 <= b < |g| ==> (Edge(g, a, b) <==> Edge(h, a, b))
    ensures g == h
  {
    forall a | 0 <= a < |g| ensures g[a] == h[a] {
      forall b ensures b in g[a] <==> b in h[a] {
        assert 0 <= b < |g| ==> (Edge(g, a, b) <==> Edge(h, a, b));
      }
    }
  }

  /** A configuration can be stratified exactly if its dependents, those of MODULES included, have no loop. */
  method Stratify(cfg: Config) returns (loop: Option<seq<nat>>)
    requires Plain(cfg)
    ensures loop.None? <==> exists rank :: WellFormed(cfg.(rank := rank))
    ensures loop.None? <==> !exists l :: Loop(WithModules(cfg), l)
    ensures loop.Some? ==> Loop(WithModules(cfg), loop.value) && Distinct(loop.value)
  {
    hide WellFormed, Plain, Loop, Finished, WithModules, DependsOn;
    ghost var order;
    loop, order := CheckDepLoops(WithModules(cfg));
    if loop.None? {
      FinishedStratifies(cfg, order);
    } else {
      forall rank ensures !WellFormed(cfg.(rank := rank)) {
        var ranked := cfg.(rank := rank);
        if WellFormed(ranked) {
          SameGraph(cfg, rank);
          StratifiedHasNoLoop(ranked, loop.value);
        }
      }
    }
  }

  /**
    The check: a loop it reports is a genuine one, without repetitions, and it reports one if there is
    one. Where MODULES is undefined or nothing is tristate, it passes exactly if there is a ranking.
    */
  method CheckConfig(cfg: Config) returns (loop: Option<seq<nat>>)
    requires Plain(cfg)
    ensures loop.None? <==> !exists l :: Loop(Dependents(cfg), l)
    ensures loop.Some? ==> Loop(Dependents(cfg), loop.value) && Distinct(loop.value)
    ensures cfg.At(cfg.modules).Const? || (forall i :: 0 <= i < |cfg.items| ==> !IsTristate(cfg, i)) ==>
              (loop.None? <==> exists rank :: WellFormed(cfg.(rank := rank)))
  {
    hide WellFormed, Loop, Finished, DependsOn;
    ghost var order;
    loop, order := CheckDepLoops(Dependents(cfg));
    if cfg.At(cfg.modules).Const? || forall i :: 0 <= i < |cfg.items| ==> !IsTristate(cfg, i) {
      SameEdges(WithModules(cfg), Dependents(cfg));
      if loop.None? {
        FinishedStratifies(cfg, order);
      } else {
        forall rank ensures !WellFormed(cfg.(rank := rank)) {
          var ranked := cfg.(rank := rank);
          if WellFormed(ranked) {
            SameGraph(cfg, rank);
            StratifiedHasNoLoop(ranked, loop.value);
          }
        }
      }
    }
  }

  // ---------------------------------------------------------------------------------------------
  // MODULES that depends on a tristate

  /** n, y, MODULES which is T by default, and a tristate T. */
  function ModulesConfig(): Config {
    var n, y := Ref(0), Ref(1);
    Config([Const("n", Bool, 0), Const("y", Bool, 2),
            Symbol("MODULES", Bool, [], [Default(Ref(3), y)], [], n, n, y, None, false),
            Symbol("T", Tristate, [y], [], [], n, n, y, None, false)],
           2, [])
  }

  lemma {:induction false} ModulesDepends()
    ensures DependsOn(ModulesConfig(), 2) == {0, 1, 3} && DependsOn(ModulesConfig(), 3) == {0, 1}
  {
    assert [Ref(1)][..0] == [];
    assert ItemsOf([Ref(1)]) == {1};
    var d := [Ref(3), Ref(1)];
    assert d[..1] == [Ref(3)] && [Ref(3)][..0] == [];
    assert ItemsOf([Ref(3)]) == {3};
    assert ItemsOf(d) == {3, 1};
    var ds := [Default(Ref(3), Ref(1))];
    assert ds[1..] == [] && DefaultExprs(ds) == d;
  }

  lemma {:induction false} ModulesEdges(j: nat, i: nat)
    requires Edge(Dependents(ModulesConfig()), j, i)
    ensures j == 3 && i == 2
  {
    hide DependsOn;
    ModulesDepends();
    var cfg := ModulesConfig();
    assert j in DependsOn(cfg, i) && !cfg.At(j).Const? && i < 4;
    ConstDepends(cfg, i);
    assert i == 2 || i == 3;
  }

  lemma {:induction false} ConstDepends(cfg: Config, i: nat)
    ensures cfg.At(i).Const? ==> DependsOn(cfg, i) == {}
  {
  }

  /** The check passes, but whether T acts as a tristate depends on MODULES, which depends on T. */
  lemma {:induction false} ModulesLoopMissed()
    ensures Plain(ModulesConfig())
    ensures forall l :: !Loop(Dependents(ModulesConfig()), l)
    ensures forall rank :: !WellFormed(ModulesConfig().(rank := rank))
  {
    hide DependsOn;
    var cfg := ModulesConfig();
    ModulesDepends();
    forall i | 0 <= i < 4 ensures PlainItem(cfg, i) {
      ConstDepends(cfg, i);
      assert i == 0 || i == 1 || i == 2 || i == 3;
    }
    forall l ensures !Loop(Dependents(cfg), l) {
      if Loop(Dependents(cfg), l) {
        var n := |l| - 1;
        ModulesEdges(l[0], l[n]);
        if n > 0 { ModulesEdges(l[n], l[n - 1]); }
      }
    }
    forall rank ensures !WellFormed(cfg.(rank := rank)) {
      var ranked := cfg.(rank := rank);
      var value := ranked.At(2).defaults[0].value;
      assert ItemWellFormed(ranked, 2) ==> ExprBelow(ranked, value, 2);
      assert ItemWellFormed(ranked, 3) ==> ranked.Rank(2) < ranked.Rank(3);
    }
  }
}
