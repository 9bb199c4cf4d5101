/**
  Which items a cached value can have read: the dependency sets built after parsing. Support of an
  item survives any change that leaves alone, or only adds to, the caches of the items it depends on.
  */
module KconfigSupport {
  import opened Basics
  import opened Numbers
  import opened KconfigModel
  import opened KconfigCache

  function ExprItems(e: Expr): set<nat> {
    match e
    case Ref(i) => {i}
    case And(a, b) => ExprItems(a) + ExprItems(b)
    case Or(a, b) => ExprItems(a) + ExprItems(b)
    case Not(a) => ExprItems(a)
    case Rel(_, a, b) => {a, b}
  }

  function ItemsOf(es: seq<Expr>): (r: set<nat>)
    ensures forall k :: 0 <= k < |es| ==> ExprItems(es[k]) <= r
  {
    if es == [] then {} else ItemsOf(es[..|es| - 1]) + ExprItems(es[|es| - 1])
  }

  function DefaultExprs(ds: seq<Default>): (r: seq<Expr>)
    ensures forall d :: d in ds ==> d.value in r && d.cond in r
  {
    if ds == [] then [] else [ds[0].value, ds[0].cond] + DefaultExprs(ds[1..])
  }

  function RangeExprs(rs: seq<Range>): (r: seq<Expr>)
    ensures forall x :: x in rs ==> Ref(x.low) in r && Ref(x.high) in r && x.cond in r
  {
    if rs == [] then [] else [Ref(rs[0].low), Ref(rs[0].high), rs[0].cond] + RangeExprs(rs[1..])
  }

  function CondExprs(ds: seq<ChoiceDefault>): (r: seq<Expr>)
    ensures forall d :: d in ds ==> d.cond in r
  {
    if ds == [] then [] else [ds[0].cond] + CondExprs(ds[1..])
  }

  /** The items that `i` immediately depends on; a choice also depends on its symbols. */
  function DependsOn(cfg: Config, i: nat): set<nat> {
    match cfg.At(i)
    case Const(_, _, _) => {}
    case Symbol(_, _, prompts, defaults, ranges, rev, weak, direct, _, _) =>
      ItemsOf(prompts) + ItemsOf(DefaultExprs(defaults)) + ItemsOf(RangeExprs(ranges))
      + ExprItems(rev) + ExprItems(weak) + ExprItems(direct)
    case Choice(_, prompts, ds, syms, _) =>
      ItemsOf(prompts) + ItemsOf(CondExprs(ds)) + (set s | s in syms)
  }

  /** The sets of immediate dependents, the inverse of `DependsOn`; constants have none. */
  function Dependents(cfg: Config): (r: seq<set<nat>>)
    ensures |r| == |cfg.items|
    ensures forall k, i :: 0 <= k < |r| ==>
              (i in r[k] <==> !cfg.At(k).Const? && 0 <= i < |r| && k in DependsOn(cfg, i))
  {
    seq(|cfg.items|, k requires 0 <= k =>
      set i | 0 <= i < |cfg.items| && !cfg.At(k).Const? && k in DependsOn(cfg, i))
  }

  /** All cached fields are kept; some may have been added. */
  predicate Extends(c: Cache, d: Cache) {
    && (c.vis.Some? ==> d.vis == c.vis)
    && (c.tri.Some? ==> d.tri == c.tri)
    && (c.str.Some? ==> d.str == c.str)
    && (c.asg.Some? ==> d.asg == c.asg)
    && (c.sel.Some? ==> d.sel == c.sel)
  }

  /** Reading item `k` still gives what it gave before. */
  ghost predicate Keeps(cfg: Config, u: User, ca: Caches, v: User, cb: Caches, k: nat) {
    Extends(CacheAt(ca, k), CacheAt(cb, k))
    && (cfg.At(k).Choice? ==> UserAt(u, k).tri == UserAt(v, k).tri)
  }

  ghost predicate KeepsAll(cfg: Config, u: User, ca: Caches, v: User, cb: Caches, ks: set<nat>) {
    Keeps(cfg, u, ca, v, cb, cfg.modules) && forall k :: k in ks ==> Keeps(cfg, u, ca, v, cb, k)
  }

  lemma {:induction false} ItemKept(cfg: Config, u: User, ca: Caches, v: User, cb: Caches, k: nat)
    requires Keeps(cfg, u, ca, v, cb, cfg.modules) && Keeps(cfg, u, ca, v, cb, k)
    ensures KnownTri(cfg, u, ca, k).Some? ==> KnownTri(cfg, v, cb, k) == KnownTri(cfg, u, ca, k)
    ensures KnownSymTri(cfg, ca, k).Some? ==> KnownSymTri(cfg, cb, k) == KnownSymTri(cfg, ca, k)
    ensures KnownModules(cfg, ca).Some? ==> KnownModules(cfg, cb) == KnownModules(cfg, ca)
    ensures KnownStr(cfg, ca, k).Some? ==> KnownStr(cfg, cb, k) == KnownStr(cfg, ca, k)
    ensures KnownNum(cfg, ca, k).Some? ==> KnownNum(cfg, cb, k) == KnownNum(cfg, ca, k)
  {
  }

  lemma {:induction false} CompareKept(cfg: Config, u: User, ca: Caches, v: User, cb: Caches, a: nat, b: nat)
    requires Keeps(cfg, u, ca, v, cb, cfg.modules) && Keeps(cfg, u, ca, v, cb, a) && Keeps(cfg, u, ca, v, cb, b)
    ensures KnownCompare(cfg, ca, a, b).Some? ==> KnownCompare(cfg, cb, a, b) == KnownCompare(cfg, ca, a, b)
  {
    hide Keeps, KnownNum, KnownStr;
    ItemKept(cfg, u, ca, v, cb, a);
    ItemKept(cfg, u, ca, v, cb, b);
  }

  lemma {:induction false} ExprKept(cfg: Config, u: User, ca: Caches, v: User, cb: Caches, e: Expr, ks: set<nat>)
    requires KeepsAll(cfg, u, ca, v, cb, ks) && ExprItems(e) <= ks
    ensures KnownExpr(cfg, u, ca, e).Some? ==> KnownExpr(cfg, v, cb, e) == KnownExpr(cfg, u, ca, e)
  {
    hide Keeps, KnownTri, KnownCompare;
    match e
    case Ref(i) => ItemKept(cfg, u, ca, v, cb, i);
    case And(a, b) =>
      ExprKept(cfg, u, ca, v, cb, a, ks);
      ExprKept(cfg, u, ca, v, cb, b, ks);
    case Or(a, b) =>
      ExprKept(cfg, u, ca, v, cb, a, ks);
      ExprKept(cfg, u, ca, v, cb, b, ks);
    case Not(a) => ExprKept(cfg, u, ca, v, cb, a, ks);
    case Rel(_, a, b) => CompareKept(cfg, u, ca, v, cb, a, b);
  }

  lemma {:induction false} MaxKept(cfg: Config, u: User, ca: Caches, v: User, cb: Caches, es: seq<Expr>, ks: set<nat>)
    requires KeepsAll(cfg, u, ca, v, cb, ks) && ItemsOf(es) <= ks
    ensures KnownMax(cfg, u, ca, es).Some? ==> KnownMax(cfg, v, cb, es) == KnownMax(cfg, u, ca, es)
  {
    if es != [] {
      MaxKept(cfg, u, ca, v, cb, es[..|es| - 1], ks);
      ExprKept(cfg, u, ca, v, cb, es[|es| - 1], ks);
    }
  }

  lemma {:induction false} DefaultKept(cfg: Config, u: User, ca: Caches, v: User, cb: Caches, ds: seq<Default>, ks: set<nat>)
    requires KeepsAll(cfg, u, ca, v, cb, ks)
    requires forall d :: d in ds ==> ExprItems(d.value) <= ks && ExprItems(d.cond) <= ks
    ensures var r := KnownDefault(cfg, u, ca, ds);
            r.Some? ==> KnownDefault(cfg, v, cb, ds) == r && (r.value.Some? ==> r.value.value in ds)
  {
    if ds != [] {
      ExprKept(cfg, u, ca, v, cb, ds[0].cond, ks);
      DefaultKept(cfg, u, ca, v, cb, ds[1..], ks);
    }
  }

  lemma {:induction false} RangeKept(cfg: Config, u: User, ca: Caches, v: User, cb: Caches, rs: seq<Range>, ks: set<nat>)
    requires KeepsAll(cfg, u, ca, v, cb, ks)
    requires forall x :: x in rs ==> ExprItems(x.cond) <= ks
    ensures var r := KnownRange(cfg, u, ca, rs);
            r.Some? ==> KnownRange(cfg, v, cb, rs) == r && (r.value.Some? ==> r.value.value in rs)
  {
    if rs != [] {
      ExprKept(cfg, u, ca, v, cb, rs[0].cond, ks);
      RangeKept(cfg, u, ca, v, cb, rs[1..], ks);
    }
  }

  lemma {:induction false} ChoiceDefaultKept(cfg: Config, u: User, ca: Caches, v: User, cb: Caches, ds: seq<ChoiceDefault>, ks: set<nat>)
    requires KeepsAll(cfg, u, ca, v, cb, ks)
    requires forall d :: d in ds ==> ExprItems(d.cond) <= ks && d.sym in ks
    ensures KnownChoiceDefault(cfg, u, ca, ds).Some? ==>
              KnownChoiceDefault(cfg, v, cb, ds) == KnownChoiceDefault(cfg, u, ca, ds)
  {
    if ds != [] {
      ExprKept(cfg, u, ca, v, cb, ds[0].cond, ks);
      assert Keeps(cfg, u, ca, v, cb, ds[0].sym);
      ChoiceDefaultKept(cfg, u, ca, v, cb, ds[1..], ks);
    }
  }

  lemma {:induction false} FirstVisibleKept(cfg: Config, u: User, ca: Caches, v: User, cb: Caches, syms: seq<nat>, ks: set<nat>)
    requires KeepsAll(cfg, u, ca, v, cb, ks) && forall s :: s in syms ==> s in ks
    ensures KnownFirstVisible(ca, syms).Some? ==> KnownFirstVisible(cb, syms) == KnownFirstVisible(ca, syms)
  {
    if syms != [] {
      assert Keeps(cfg, u, ca, v, cb, syms[0]);
      FirstVisibleKept(cfg, u, ca, v, cb, syms[1..], ks);
    }
  }

  lemma {:induction false} GuardedMentions(cfg: Config, u: User, ca: Caches, e: Expr, c: nat)
    requires Guarded(cfg, e, c) && KnownExpr(cfg, u, ca, e).Some? && KnownExpr(cfg, u, ca, e).value > 0
    ensures c in ExprItems(e)
  {
    if e.And? {
      if Guarded(cfg, e.left, c) { GuardedMentions(cfg, u, ca, e.left, c); }
      else { GuardedMentions(cfg, u, ca, e.right, c); }
    }
  }

  lemma {:induction false} GuardedMax(cfg: Config, u: User, ca: Caches, es: seq<Expr>, c: nat)
    requires forall k :: 0 <= k < |es| ==> Guarded(cfg, es[k], c)
    requires KnownMax(cfg, u, ca, es).Some? && KnownMax(cfg, u, ca, es).value > 0
    ensures c in ItemsOf(es)
  {
    var e := es[|es| - 1];
    if KnownExpr(cfg, u, ca, e).value > 0 { GuardedMentions(cfg, u, ca, e, c); }
    else { GuardedMax(cfg, u, ca, es[..|es| - 1], c); }
  }

  /** Everything the computations of item `i` may read, apart from `i` itself and MODULES, is in `ks`. */
  ghost predicate Covers(cfg: Config, i: nat, ks: set<nat>) {
    match cfg.At(i)
    case Const(_, _, _) => true
    case Symbol(_, _, prompts, defaults, ranges, rev, weak, direct, _, _) =>
      && ItemsOf(prompts) <= ks
      && (forall d :: d in defaults ==> ExprItems(d.value) <= ks && ExprItems(d.cond) <= ks)
      && (forall r :: r in ranges ==> r.low in ks && r.high in ks && ExprItems(r.cond) <= ks)
      && ExprItems(rev) <= ks && ExprItems(weak) <= ks && ExprItems(direct) <= ks
    case Choice(_, prompts, ds, syms, _) =>
      && ItemsOf(prompts) <= ks
      && (forall d :: d in ds ==> ExprItems(d.cond) <= ks && d.sym in ks)
      && forall s :: s in syms ==> s in ks
  }

  lemma {:induction false} DependsOnCovers(cfg: Config, i: nat, ks: set<nat>)
    requires WellFormed(cfg) && i < |cfg.items| && DependsOn(cfg, i) <= ks
    ensures Covers(cfg, i, ks)
  {
    assert ItemWellFormed(cfg, i);
    match cfg.At(i)
    case Const(_, _, _) =>
    case Symbol(_, _, prompts, defaults, ranges, rev, weak, direct, _, _) =>
      var ds, rs := DefaultExprs(defaults), RangeExprs(ranges);
      assert forall e :: e in ds ==> ExprItems(e) <= ItemsOf(ds);
      assert forall e :: e in rs ==> ExprItems(e) <= ItemsOf(rs);
      forall r | r in ranges ensures r.low in ks && r.high in ks && ExprItems(r.cond) <= ks {
        assert r.low in ExprItems(Ref(r.low)) && r.high in ExprItems(Ref(r.high));
      }
    case Choice(_, prompts, ds, syms, _) =>
      var cs := CondExprs(ds);
      assert forall e :: e in cs ==> ExprItems(e) <= ItemsOf(cs);
  }

  /** A choice symbol that its prompts make visible depends on its choice. */
  lemma {:induction false} VisibleDependsOnChoice(cfg: Config, u: User, ca: Caches, i: nat)
    requires WellFormed(cfg) && i < |cfg.items| && cfg.At(i).Symbol? && cfg.At(i).choice.Some?
    requires KnownMax(cfg, u, ca, cfg.At(i).prompts).Some? && KnownMax(cfg, u, ca, cfg.At(i).prompts).value > 0
    ensures cfg.At(i).choice.value in ItemsOf(cfg.At(i).prompts)
  {
    assert ItemWellFormed(cfg, i);
    GuardedMax(cfg, u, ca, cfg.At(i).prompts, cfg.At(i).choice.value);
  }

  lemma {:induction false} VisKept(cfg: Config, u: User, ca: Caches, v: User, cb: Caches, i: nat, ks: set<nat>)
    requires WellFormed(cfg) && i < |cfg.items| && KeepsAll(cfg, u, ca, v, cb, ks) && Covers(cfg, i, ks)
    ensures KnownVis(cfg, u, ca, i).Some? ==> KnownVis(cfg, v, cb, i) == KnownVis(cfg, u, ca, i)
  {
    hide Keeps, KnownMax, KnownTri, KnownModules, WellFormed, ItemsOf;
    var it := cfg.At(i);
    if !it.Const? && KnownVis(cfg, u, ca, i).Some? {
      MaxKept(cfg, u, ca, v, cb, it.prompts, ks);
      ItemKept(cfg, u, ca, v, cb, cfg.modules);
      if it.Symbol? && it.choice.Some? && KnownMax(cfg, u, ca, it.prompts).value > 0 {
        VisibleDependsOnChoice(cfg, u, ca, i);
        ItemKept(cfg, u, ca, v, cb, it.choice.value);
      }
    }
  }

  /** The user value of the item itself is unchanged, or the item is invisible and it does not matter. */
  ghost predicate UserKept(cfg: Config, u: User, ca: Caches, v: User, i: nat) {
    UserAt(u, i) == UserAt(v, i) || (cfg.At(i).Symbol? && (CacheAt(ca, i).vis.Some? ==> CacheAt(ca, i).vis.value == 0))
  }

  lemma {:induction false} DefaultTriKept(cfg: Config, u: User, ca: Caches, v: User, cb: Caches, ds: seq<Default>, ks: set<nat>)
    requires KeepsAll(cfg, u, ca, v, cb, ks)
    requires forall d :: d in ds ==> ExprItems(d.value) <= ks && ExprItems(d.cond) <= ks
    ensures KnownDefaultTri(cfg, u, ca, ds).Some? ==> KnownDefaultTri(cfg, v, cb, ds) == KnownDefaultTri(cfg, u, ca, ds)
  {
    DefaultKept(cfg, u, ca, v, cb, ds, ks);
    var d := KnownDefault(cfg, u, ca, ds);
    if d.Some? && d.value.Some? {
      ExprKept(cfg, u, ca, v, cb, d.value.value.value, ks);
      ExprKept(cfg, u, ca, v, cb, d.value.value.cond, ks);
    }
  }

  lemma {:induction false} WantedKept(cfg: Config, u: User, ca: Caches, v: User, cb: Caches, i: nat, ks: set<nat>)
    requires cfg.At(i).Symbol? && KeepsAll(cfg, u, ca, v, cb, ks) && Covers(cfg, i, ks) && i in ks
    requires UserKept(cfg, u, ca, v, i)
    ensures KnownWanted(cfg, u, ca, i).Some? ==> KnownWanted(cfg, v, cb, i) == KnownWanted(cfg, u, ca, i)
  {
    var it := cfg.At(i);
    assert Keeps(cfg, u, ca, v, cb, i);
    DefaultTriKept(cfg, u, ca, v, cb, it.defaults, ks);
    ExprKept(cfg, u, ca, v, cb, it.weakRevDep, ks);
    ExprKept(cfg, u, ca, v, cb, it.directDep, ks);
  }

  lemma {:induction false} PlainTriKept(cfg: Config, u: User, ca: Caches, v: User, cb: Caches, i: nat, ks: set<nat>)
    requires cfg.At(i).Symbol? && KeepsAll(cfg, u, ca, v, cb, ks) && Covers(cfg, i, ks) && i in ks
    requires UserKept(cfg, u, ca, v, i)
    ensures KnownPlainTri(cfg, u, ca, i).Some? ==> KnownPlainTri(cfg, v, cb, i) == KnownPlainTri(cfg, u, ca, i)
  {
    WantedKept(cfg, u, ca, v, cb, i, ks);
    ExprKept(cfg, u, ca, v, cb, cfg.At(i).weakRevDep, ks);
    ExprKept(cfg, u, ca, v, cb, cfg.At(i).revDep, ks);
  }

  lemma {:induction false} TriKept(cfg: Config, u: User, ca: Caches, v: User, cb: Caches, i: nat, ks: set<nat>)
    requires WellFormed(cfg) && i < |cfg.items| && cfg.At(i).Symbol? && VisSupported(cfg, u, ca, i)
    requires KeepsAll(cfg, u, ca, v, cb, ks) && Covers(cfg, i, ks) && i in ks && UserKept(cfg, u, ca, v, i)
    ensures KnownTriResult(cfg, u, ca, i).Some? ==> KnownTriResult(cfg, v, cb, i) == KnownTriResult(cfg, u, ca, i)
  {
    var it := cfg.At(i);
    if IsBoolTri(it.typ) && it.choice.Some? {
      assert Keeps(cfg, u, ca, v, cb, i);
      if CacheAt(ca, i).vis.Some? && CacheAt(ca, i).vis.value > 0 {
        VisibleDependsOnChoice(cfg, u, ca, i);
        assert Keeps(cfg, u, ca, v, cb, it.choice.value);
      }
    } else if IsBoolTri(it.typ) {
      PlainTriKept(cfg, u, ca, v, cb, i, ks);
    }
  }

  lemma {:induction false} DefaultStrKept(cfg: Config, u: User, ca: Caches, v: User, cb: Caches, i: nat, ks: set<nat>)
    requires cfg.At(i).Symbol? && KeepsAll(cfg, u, ca, v, cb, ks) && Covers(cfg, i, ks)
    ensures var ds := cfg.At(i).defaults;
            KnownDefaultStr(cfg, u, ca, ds).Some? ==> KnownDefaultStr(cfg, v, cb, ds) == KnownDefaultStr(cfg, u, ca, ds)
  {
    DefaultKept(cfg, u, ca, v, cb, cfg.At(i).defaults, ks);
    var d := KnownDefault(cfg, u, ca, cfg.At(i).defaults);
    if d.Some? && d.value.Some? && d.value.value.value.Ref? {
      assert d.value.value.value.item in ExprItems(d.value.value.value);
      assert Keeps(cfg, u, ca, v, cb, d.value.value.value.item);
    }
  }

  lemma {:induction false} BoundsKept(cfg: Config, u: User, ca: Caches, v: User, cb: Caches, i: nat, ks: set<nat>)
    requires cfg.At(i).Symbol? && KeepsAll(cfg, u, ca, v, cb, ks) && Covers(cfg, i, ks)
    ensures KnownBounds(cfg, u, ca, cfg.At(i)).Some? ==>
              KnownBounds(cfg, v, cb, cfg.At(i)) == KnownBounds(cfg, u, ca, cfg.At(i))
  {
    hide Keeps, KnownStr, KnownRange;
    RangeKept(cfg, u, ca, v, cb, cfg.At(i).ranges, ks);
    var r := KnownRange(cfg, u, ca, cfg.At(i).ranges);
    if r.Some? && r.value.Some? {
      ItemKept(cfg, u, ca, v, cb, r.value.value.low);
      ItemKept(cfg, u, ca, v, cb, r.value.value.high);
    }
  }

  lemma {:induction false} StrKept(cfg: Config, u: User, ca: Caches, v: User, cb: Caches, i: nat, ks: set<nat>)
    requires WellFormed(cfg) && i < |cfg.items| && cfg.At(i).Symbol? && !IsBoolTri(cfg.At(i).typ)
    requires KeepsAll(cfg, u, ca, v, cb, ks) && Covers(cfg, i, ks) && i in ks && UserKept(cfg, u, ca, v, i)
    ensures KnownStrResult(cfg, u, ca, i).Some? ==> KnownStrResult(cfg, v, cb, i) == KnownStrResult(cfg, u, ca, i)
  {
    assert Keeps(cfg, u, ca, v, cb, i);
    DefaultStrKept(cfg, u, ca, v, cb, i, ks);
    BoundsKept(cfg, u, ca, v, cb, i, ks);
  }

  lemma {:induction false} AsgKept(cfg: Config, u: User, ca: Caches, v: User, cb: Caches, i: nat, ks: set<nat>)
    requires KeepsAll(cfg, u, ca, v, cb, ks) && Covers(cfg, i, ks) && i in ks
    ensures KnownAsg(cfg, u, ca, i).Some? ==> KnownAsg(cfg, v, cb, i) == KnownAsg(cfg, u, ca, i)
  {
    hide KnownExpr, ItemsOf;
    var it := cfg.At(i);
    assert Keeps(cfg, u, ca, v, cb, i);
    if it.Symbol? {
      ExprKept(cfg, u, ca, v, cb, it.revDep, ks);
      ExprKept(cfg, u, ca, v, cb, it.weakRevDep, ks);
    }
  }

  lemma {:induction false} SelFromDefaultsKept(cfg: Config, u: User, ca: Caches, v: User, cb: Caches, c: nat, ks: set<nat>)
    requires WellFormed(cfg) && c < |cfg.items| && cfg.At(c).Choice?
    requires KeepsAll(cfg, u, ca, v, cb, ks) && Covers(cfg, c, ks)
    ensures KnownSelFromDefaults(cfg, u, ca, c).Some? ==>
              KnownSelFromDefaults(cfg, v, cb, c) == KnownSelFromDefaults(cfg, u, ca, c)
  {
    ChoiceDefaultKept(cfg, u, ca, v, cb, cfg.At(c).choiceDefaults, ks);
    FirstVisibleKept(cfg, u, ca, v, cb, cfg.At(c).syms, ks);
  }

  lemma {:induction false} SelKept(cfg: Config, u: User, ca: Caches, v: User, cb: Caches, c: nat, ks: set<nat>)
    requires WellFormed(cfg) && ValidUser(cfg, u) && c < |cfg.items| && cfg.At(c).Choice?
    requires KeepsAll(cfg, u, ca, v, cb, ks) && Covers(cfg, c, ks) && c in ks && UserAt(u, c) == UserAt(v, c)
    ensures KnownSel(cfg, u, ca, c).Some? ==> KnownSel(cfg, v, cb, c) == KnownSel(cfg, u, ca, c)
  {
    hide KnownMode, KnownSelFromDefaults, WellFormed, ItemsOf;
    ItemKept(cfg, u, ca, v, cb, c);
    SelFromDefaultsKept(cfg, u, ca, v, cb, c, ks);
    if u[c].sel.Some? {
      assert u[c].sel.value in ks;
      assert Keeps(cfg, u, ca, v, cb, u[c].sel.value);
    }
  }

  /** An untouched item stays supported when everything it depends on is kept. */
  lemma {:induction false} SupportKept(cfg: Config, u: User, ca: Caches, v: User, cb: Caches, i: nat)
    requires WellFormed(cfg) && ValidUser(cfg, u) && |ca| == |cb| == |cfg.items| && i < |cfg.items|
    requires SupportedAt(cfg, u, ca, i) && CacheAt(cb, i) == CacheAt(ca, i)
    requires KeepsAll(cfg, u, ca, v, cb, DependsOn(cfg, i) + {i}) && UserKept(cfg, u, ca, v, i)
    ensures SupportedAt(cfg, v, cb, i)
  {
    var ks := DependsOn(cfg, i) + {i};
    DependsOnCovers(cfg, i, ks);
    VisKept(cfg, u, ca, v, cb, i, ks);
    AsgKept(cfg, u, ca, v, cb, i, ks);
    if cfg.At(i).Symbol? {
      TriKept(cfg, u, ca, v, cb, i, ks);
      if !IsBoolTri(cfg.At(i).typ) { StrKept(cfg, u, ca, v, cb, i, ks); }
    }
    if cfg.At(i).Choice? { SelKept(cfg, u, ca, v, cb, i, ks); }
  }

  // ---------------------------------------------------------------------------------------------
  // Adding one cached field

  lemma {:induction false} SupportExtended(cfg: Config, u: User, ca: Caches, cb: Caches, i: nat)
    requires WellFormed(cfg) && ValidUser(cfg, u) && |ca| == |cb| == |cfg.items| && Supported(cfg, u, ca)
    requires forall k: nat :: k != i ==> CacheAt(cb, k) == CacheAt(ca, k)
    requires Extends(CacheAt(ca, i), CacheAt(cb, i))
    ensures forall k: nat :: k != i ==> SupportedAt(cfg, u, cb, k)
  {
    forall k: nat | k != i ensures SupportedAt(cfg, u, cb, k) {
      assert SupportedAt(cfg, u, ca, k);
      if k < |cfg.items| {
        assert Keeps(cfg, u, ca, u, cb, cfg.modules);
        SupportKept(cfg, u, ca, u, cb, k);
      }
    }
  }

  lemma {:induction false} KeepsOwn(cfg: Config, u: User, ca: Caches, cb: Caches, i: nat)
    requires WellFormed(cfg) && ValidUser(cfg, u) && |ca| == |cb| == |cfg.items| && i < |cfg.items|
    requires forall k: nat :: k != i ==> CacheAt(cb, k) == CacheAt(ca, k)
    requires Extends(CacheAt(ca, i), CacheAt(cb, i)) && VisSupported(cfg, u, ca, i)
    ensures KnownVis(cfg, u, ca, i).Some? ==> KnownVis(cfg, u, cb, i) == KnownVis(cfg, u, ca, i)
    ensures KnownAsg(cfg, u, ca, i).Some? ==> KnownAsg(cfg, u, cb, i) == KnownAsg(cfg, u, ca, i)
    ensures cfg.At(i).Symbol? && KnownTriResult(cfg, u, ca, i).Some? ==>
              KnownTriResult(cfg, u, cb, i) == KnownTriResult(cfg, u, ca, i)
    ensures cfg.At(i).Symbol? && !IsBoolTri(cfg.At(i).typ) && KnownStrResult(cfg, u, ca, i).Some? ==>
              KnownStrResult(cfg, u, cb, i) == KnownStrResult(cfg, u, ca, i)
    ensures cfg.At(i).Choice? && KnownSel(cfg, u, ca, i).Some? ==> KnownSel(cfg, u, cb, i) == KnownSel(cfg, u, ca, i)
  {
    var ks := DependsOn(cfg, i) + {i};
    DependsOnCovers(cfg, i, ks);
    assert KeepsAll(cfg, u, ca, u, cb, ks);
    VisKept(cfg, u, ca, u, cb, i, ks);
    AsgKept(cfg, u, ca, u, cb, i, ks);
    if cfg.At(i).Symbol? {
      TriKept(cfg, u, ca, u, cb, i, ks);
      if !IsBoolTri(cfg.At(i).typ) { StrKept(cfg, u, ca, u, cb, i, ks); }
    }
    if cfg.At(i).Choice? { SelKept(cfg, u, ca, u, cb, i, ks); }
  }

  lemma {:induction false} CacheVis(cfg: Config, u: User, ca: Caches, i: nat, v: Tri) returns (cb: Caches)
    requires WellFormed(cfg) && ValidUser(cfg, u) && |ca| == |cfg.items| && Supported(cfg, u, ca) && i < |ca|
    requires ca[i].vis.None? && KnownVis(cfg, u, ca, i) == Some(v)
    ensures cb == ca[i := ca[i].(vis := Some(v))] && Supported(cfg, u, cb)
  {
    cb := ca[i := ca[i].(vis := Some(v))];
    assert SupportedAt(cfg, u, ca, i);
    SupportExtended(cfg, u, ca, cb, i);
    KeepsOwn(cfg, u, ca, cb, i);
    assert SupportedAt(cfg, u, cb, i);
  }

  lemma {:induction false} CacheTri(cfg: Config, u: User, ca: Caches, i: nat, r: (Tri, bool)) returns (cb: Caches)
    requires WellFormed(cfg) && ValidUser(cfg, u) && |ca| == |cfg.items| && Supported(cfg, u, ca) && i < |ca|
    requires ca[i].tri.None? && cfg.At(i).Symbol? && IsBoolTri(cfg.At(i).typ)
    requires KnownTriResult(cfg, u, ca, i) == Some(r)
    ensures cb == ca[i := ca[i].(tri := Some(r.0), writes := r.1)] && Supported(cfg, u, cb)
  {
    cb := ca[i := ca[i].(tri := Some(r.0), writes := r.1)];
    assert SupportedAt(cfg, u, ca, i);
    SupportExtended(cfg, u, ca, cb, i);
    KeepsOwn(cfg, u, ca, cb, i);
    assert SupportedAt(cfg, u, cb, i);
  }

  lemma {:induction false} CacheStr(cfg: Config, u: User, ca: Caches, i: nat, r: (string, bool)) returns (cb: Caches)
    requires WellFormed(cfg) && ValidUser(cfg, u) && |ca| == |cfg.items| && Supported(cfg, u, ca) && i < |ca|
    requires ca[i].str.None? && cfg.At(i).Symbol? && KnownStrResult(cfg, u, ca, i) == Some(r)
    ensures cb == ca[i := ca[i].(str := Some(r.0), writes := r.1)] && Supported(cfg, u, cb)
  {
    cb := ca[i := ca[i].(str := Some(r.0), writes := r.1)];
    assert SupportedAt(cfg, u, ca, i);
    SupportExtended(cfg, u, ca, cb, i);
    KeepsOwn(cfg, u, ca, cb, i);
    assert SupportedAt(cfg, u, cb, i);
  }

  lemma {:induction false} CacheAsg(cfg: Config, u: User, ca: Caches, i: nat, r: seq<Tri>) returns (cb: Caches)
    requires WellFormed(cfg) && ValidUser(cfg, u) && |ca| == |cfg.items| && Supported(cfg, u, ca) && i < |ca|
    requires ca[i].asg.None? && KnownAsg(cfg, u, ca, i) == Some(r)
    ensures cb == ca[i := ca[i].(asg := Some(r))] && Supported(cfg, u, cb)
  {
    cb := ca[i := ca[i].(asg := Some(r))];
    assert SupportedAt(cfg, u, ca, i);
    SupportExtended(cfg, u, ca, cb, i);
    KeepsOwn(cfg, u, ca, cb, i);
    assert SupportedAt(cfg, u, cb, i);
  }

  lemma {:induction false} CacheSel(cfg: Config, u: User, ca: Caches, c: nat, r: Option<nat>) returns (cb: Caches)
    requires WellFormed(cfg) && ValidUser(cfg, u) && |ca| == |cfg.items| && Supported(cfg, u, ca) && c < |ca|
    requires ca[c].sel.None? && cfg.At(c).Choice? && KnownSel(cfg, u, ca, c) == Some(r)
    ensures cb == ca[c := ca[c].(sel := Some(r))] && Supported(cfg, u, cb)
  {
    cb := ca[c := ca[c].(sel := Some(r))];
    assert SupportedAt(cfg, u, ca, c);
    SupportExtended(cfg, u, ca, cb, c);
    KeepsOwn(cfg, u, ca, cb, c);
    assert SupportedAt(cfg, u, cb, c);
  }

  // ---------------------------------------------------------------------------------------------
  // Invalidation

  function Cleared(c: Cache): Cache {
    c.(vis := None, tri := None, str := None, asg := None, sel := None)
  }

  /** Some items lost all their cached fields, the rest are untouched. */
  ghost predicate Pruned(ca: Caches, cb: Caches) {
    |ca| == |cb| && forall k :: 0 <= k < |ca| ==> cb[k] == ca[k] || cb[k] == Cleared(ca[k])
  }

  /** The fields of an uncached item that never change and are cached without a visibility. */
  lemma {:induction false} UncachedSupported(cfg: Config, u: User, ca: Caches, v: User, cb: Caches, i: nat)
    requires WellFormed(cfg) && i < |cfg.items| && |ca| == |cb| == |cfg.items|
    requires SupportedAt(cfg, u, ca, i) && cb[i].vis.None? && (cb[i] == ca[i] || cb[i] == Cleared(ca[i]))
    ensures SupportedAt(cfg, v, cb, i)
  {
  }

  /**
    Dropping the caches of some items and of every cached item that depends on them keeps the rest
    supported, when user values only changed for dropped items, invisible symbols, or a choice symbol
    whose choice was dropped.
    */
  lemma {:induction false} PrunedSupported(cfg: Config, u: User, ca: Caches, v: User, cb: Caches, dropped: set<nat>)
    requires WellFormed(cfg) && ValidUser(cfg, u) && ValidUser(cfg, v) && |ca| == |cfg.items|
    requires Supported(cfg, u, ca) && Pruned(ca, cb)
    requires forall k :: 0 <= k < |ca| ==> if k in dropped then cb[k].vis.None? else cb[k] == ca[k]
    requires forall k, i :: k in dropped && 0 <= i < |ca| && k in DependsOn(cfg, i) ==> cb[i].vis.None?
    requires cfg.modules in dropped ==> forall i :: 0 <= i < |ca| ==> cb[i].vis.None?
    requires forall k :: 0 <= k < |ca| && cb[k].vis.Some? ==> UserKept(cfg, u, ca, v, k)
    requires forall c :: 0 <= c < |ca| && cfg.At(c).Choice? && c !in dropped ==> u[c] == v[c]
    ensures Supported(cfg, v, cb)
  {
    forall i: nat ensures SupportedAt(cfg, v, cb, i) {
      assert SupportedAt(cfg, u, ca, i);
      if i < |ca| {
        if cb[i].vis.None? {
          UncachedSupported(cfg, u, ca, v, cb, i);
        } else {
          forall k | k == cfg.modules || k in DependsOn(cfg, i) + {i} ensures Keeps(cfg, u, ca, v, cb, k) {
            assert k !in dropped;
          }
          SupportKept(cfg, u, ca, v, cb, i);
        }
      }
    }
  }
}
