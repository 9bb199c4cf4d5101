/**
  Supported caches are coherent: every cached field equals the from-scratch evaluation. Support is a
  local condition; the proof follows the settling order of the equations.
  */
module KconfigCoherence {
  import opened Basics
  import opened Numbers
  import opened KconfigModel
  import opened KconfigCache

  ghost predicate SoundAt(cfg: Config, ca: Caches, env: Env, n: nat, i: nat) {
    var c, v := CacheAt(ca, i), ValAt(env, i);
    && (VisLevel(cfg, i) < n && c.vis.Some? ==> c.vis.value == v.vis)
    && (TriLevel(cfg, i) < n && c.tri.Some? && cfg.At(i).Symbol? ==> c.tri.value == v.tri)
    && (SelLevel(cfg, i) < n && c.sel.Some? && cfg.At(i).Choice? ==> c.sel.value == v.sel)
    && (StrLevel(cfg, i) < n && c.str.Some? && cfg.At(i).Symbol? ==> c.str.value == v.str)
  }

  ghost predicate SoundBelow(cfg: Config, ca: Caches, env: Env, n: nat) {
    forall i: nat :: SoundAt(cfg, ca, env, n, i)
  }

  ghost predicate Setting(cfg: Config, u: User, ca: Caches, env: Env, n: nat) {
    WellFormed(cfg) && ValidUser(cfg, u) && Solves(cfg, u, env) && |ca| == |cfg.items|
    && SoundBelow(cfg, ca, env, n)
  }

  lemma {:induction false} EnvAt(cfg: Config, u: User, env: Env, i: nat)
    requires Solves(cfg, u, env) && i < |cfg.items|
    ensures ValAt(env, i) == Equation(cfg, u, env, i)
  {
    assert env[i] == Step(cfg, u, env)[i];
  }

  lemma {:induction false} SymTriSound(cfg: Config, u: User, ca: Caches, env: Env, n: nat, j: nat)
    requires Setting(cfg, u, ca, env, n) && j < |cfg.items| && TriLevel(cfg, j) < n
    ensures KnownSymTri(cfg, ca, j).Some? ==> KnownSymTri(cfg, ca, j).value == ValAt(env, j).tri
  {
    assert SoundAt(cfg, ca, env, n, j);
    EnvAt(cfg, u, env, j);
  }

  lemma {:induction false} ModeSound(cfg: Config, u: User, ca: Caches, env: Env, n: nat, c: nat)
    requires Setting(cfg, u, ca, env, n) && c < |cfg.items| && cfg.At(c).Choice? && VisLevel(cfg, c) < n
    ensures KnownMode(cfg, u, ca, c).Some? ==> KnownMode(cfg, u, ca, c).value == ValAt(env, c).tri
  {
    assert SoundAt(cfg, ca, env, n, c);
    EnvAt(cfg, u, env, c);
    assert ItemWellFormed(cfg, c);
    if cfg.At(c).typ == Tristate { SymTriSound(cfg, u, ca, env, n, cfg.modules); }
  }

  lemma {:induction false} StrSound(cfg: Config, u: User, ca: Caches, env: Env, n: nat, j: nat)
    requires Setting(cfg, u, ca, env, n) && j < |cfg.items| && StrLevel(cfg, j) < n
    ensures KnownStr(cfg, ca, j).Some? ==> KnownStr(cfg, ca, j).value == ValAt(env, j).str
  {
    assert SoundAt(cfg, ca, env, n, j);
    EnvAt(cfg, u, env, j);
  }

  lemma {:induction false} CompareSound(cfg: Config, u: User, ca: Caches, env: Env, n: nat, i: nat, a: nat, b: nat)
    requires Setting(cfg, u, ca, env, n) && ExprReady(cfg, i, n) && OperandBelow(cfg, a, i) && OperandBelow(cfg, b, i)
    ensures KnownCompare(cfg, ca, a, b).Some? ==> KnownCompare(cfg, ca, a, b).value == Compare(cfg, env, a, b)
  {
    hide Solves, WellFormed, SoundBelow, ParseInt, StrCmp;
    SymTriSound(cfg, u, ca, env, n, a);
    SymTriSound(cfg, u, ca, env, n, b);
    StrSound(cfg, u, ca, env, n, a);
    StrSound(cfg, u, ca, env, n, b);
  }

  lemma {:induction false} ExprSound(cfg: Config, u: User, ca: Caches, env: Env, n: nat, i: nat, e: Expr)
    requires Setting(cfg, u, ca, env, n) && i <= |cfg.items| && ExprBelow(cfg, e, i) && ExprReady(cfg, i, n)
    ensures KnownExpr(cfg, u, ca, e).Some? ==> KnownExpr(cfg, u, ca, e).value == ExprValue(cfg, env, e)
  {
    hide Solves, SoundBelow, KnownMode, KnownCompare, Compare, RelValue;
    match e
    case Ref(j) =>
      if OwnChoice(cfg, i, j) { assert ItemWellFormed(cfg, i); }
      if cfg.At(j).Choice? { ModeSound(cfg, u, ca, env, n, j); } else { SymTriSound(cfg, u, ca, env, n, j); }
    case And(a, b) =>
      ExprSound(cfg, u, ca, env, n, i, a);
      ExprSound(cfg, u, ca, env, n, i, b);
    case Or(a, b) =>
      ExprSound(cfg, u, ca, env, n, i, a);
      ExprSound(cfg, u, ca, env, n, i, b);
    case Not(a) => ExprSound(cfg, u, ca, env, n, i, a);
    case Rel(_, a, b) => CompareSound(cfg, u, ca, env, n, i, a, b);
  }

  lemma {:induction false} MaxSound(cfg: Config, u: User, ca: Caches, env: Env, n: nat, i: nat, es: seq<Expr>)
    requires Setting(cfg, u, ca, env, n) && i < |cfg.items| && ExprReady(cfg, i, n)
    requires forall k :: 0 <= k < |es| ==> ExprBelow(cfg, es[k], i)
    ensures KnownMax(cfg, u, ca, es).Some? ==> KnownMax(cfg, u, ca, es).value == MaxValue(cfg, env, es)
  {
    if es != [] {
      MaxSound(cfg, u, ca, env, n, i, es[..|es| - 1]);
      ExprSound(cfg, u, ca, env, n, i, es[|es| - 1]);
    }
  }

  lemma {:induction false} DefaultSound(cfg: Config, u: User, ca: Caches, env: Env, n: nat, i: nat, ds: seq<Default>)
    requires Setting(cfg, u, ca, env, n) && i < |cfg.items| && ExprReady(cfg, i, n)
    requires forall k :: 0 <= k < |ds| ==> ExprBelow(cfg, ds[k].cond, i)
    ensures KnownDefault(cfg, u, ca, ds).Some? ==> KnownDefault(cfg, u, ca, ds).value == ActiveDefault(cfg, env, ds)
    ensures KnownDefault(cfg, u, ca, ds).Some? && KnownDefault(cfg, u, ca, ds).value.Some? ==>
              KnownDefault(cfg, u, ca, ds).value.value in ds
  {
    if ds != [] {
      ExprSound(cfg, u, ca, env, n, i, ds[0].cond);
      DefaultSound(cfg, u, ca, env, n, i, ds[1..]);
    }
  }

  lemma {:induction false} RangeSound(cfg: Config, u: User, ca: Caches, env: Env, n: nat, i: nat, rs: seq<Range>)
    requires Setting(cfg, u, ca, env, n) && i < |cfg.items| && ExprReady(cfg, i, n)
    requires forall k :: 0 <= k < |rs| ==> ExprBelow(cfg, rs[k].cond, i)
    ensures KnownRange(cfg, u, ca, rs).Some? ==> KnownRange(cfg, u, ca, rs).value == ActiveRange(cfg, env, rs)
    ensures KnownRange(cfg, u, ca, rs).Some? && KnownRange(cfg, u, ca, rs).value.Some? ==>
              KnownRange(cfg, u, ca, rs).value.value in rs
  {
    if rs != [] {
      ExprSound(cfg, u, ca, env, n, i, rs[0].cond);
      RangeSound(cfg, u, ca, env, n, i, rs[1..]);
    }
  }

  lemma {:induction false} VisSound(cfg: Config, u: User, ca: Caches, env: Env, n: nat, i: nat)
    requires Setting(cfg, u, ca, env, n) && i < |cfg.items| && n >= VisLevel(cfg, i)
    ensures KnownVis(cfg, u, ca, i).Some? ==> KnownVis(cfg, u, ca, i).value == ValAt(env, i).vis
  {
    hide SoundBelow, KnownMax, MaxValue, KnownMode;
    EnvAt(cfg, u, env, i);
    assert ItemWellFormed(cfg, i);
    var it := cfg.At(i);
    if !it.Const? {
      MaxSound(cfg, u, ca, env, n, i, it.prompts);
      if it.typ == Tristate { SymTriSound(cfg, u, ca, env, n, cfg.modules); }
      if it.Symbol? && it.choice.Some? { ModeSound(cfg, u, ca, env, n, it.choice.value); }
    }
  }

  lemma {:induction false} DefaultTriSound(cfg: Config, u: User, ca: Caches, env: Env, n: nat, i: nat)
    requires Setting(cfg, u, ca, env, n) && i < |cfg.items| && cfg.At(i).Symbol? && ExprReady(cfg, i, n)
    ensures var d := KnownDefaultTri(cfg, u, ca, cfg.At(i).defaults);
            d.Some? ==> d.value == DefaultTri(cfg, env, cfg.At(i).defaults)
  {
    assert ItemWellFormed(cfg, i);
    DefaultSound(cfg, u, ca, env, n, i, cfg.At(i).defaults);
    var d := KnownDefault(cfg, u, ca, cfg.At(i).defaults);
    if d.Some? && d.value.Some? {
      ExprSound(cfg, u, ca, env, n, i, d.value.value.value);
      ExprSound(cfg, u, ca, env, n, i, d.value.value.cond);
    }
  }

  lemma {:induction false} PlainTriSound(cfg: Config, u: User, ca: Caches, env: Env, n: nat, i: nat)
    requires Setting(cfg, u, ca, env, n) && i < |cfg.items| && n >= TriLevel(cfg, i)
    requires cfg.At(i).Symbol? && IsBoolTri(cfg.At(i).typ) && cfg.At(i).choice.None?
    ensures var r := KnownPlainTri(cfg, u, ca, i);
            r.Some? ==> r.value.0 == ValAt(env, i).tri && r.value.1 == WrittenToConf(cfg, env, i)
  {
    hide KnownExpr, ExprValue, KnownDefaultTri, DefaultTri;
    EnvAt(cfg, u, env, i);
    assert SoundAt(cfg, ca, env, n, i);
    assert ItemWellFormed(cfg, i);
    var it := cfg.At(i);
    DefaultTriSound(cfg, u, ca, env, n, i);
    ExprSound(cfg, u, ca, env, n, i, it.weakRevDep);
    ExprSound(cfg, u, ca, env, n, i, it.directDep);
    ExprSound(cfg, u, ca, env, n, i, it.revDep);
    if it.typ == Tristate { SymTriSound(cfg, u, ca, env, n, cfg.modules); }
  }

  lemma {:induction false} TriSound(cfg: Config, u: User, ca: Caches, env: Env, n: nat, i: nat)
    requires Setting(cfg, u, ca, env, n) && i < |cfg.items| && n >= TriLevel(cfg, i) && cfg.At(i).Symbol?
    ensures var r := KnownTriResult(cfg, u, ca, i);
            r.Some? ==> r.value.0 == ValAt(env, i).tri
                        && (IsBoolTri(cfg.At(i).typ) ==> r.value.1 == WrittenToConf(cfg, env, i))
  {
    EnvAt(cfg, u, env, i);
    assert ItemWellFormed(cfg, i);
    var it := cfg.At(i);
    assert SoundAt(cfg, ca, env, n, i);
    if IsBoolTri(it.typ) && it.choice.Some? {
      assert SoundAt(cfg, ca, env, n, it.choice.value);
    } else if IsBoolTri(it.typ) {
      PlainTriSound(cfg, u, ca, env, n, i);
    }
  }

  lemma {:induction false} ChoiceDefaultSound(cfg: Config, u: User, ca: Caches, env: Env, n: nat, c: nat, ds: seq<ChoiceDefault>)
    requires Setting(cfg, u, ca, env, n) && c < |cfg.items| && cfg.At(c).Choice? && n >= SelLevel(cfg, c)
    requires forall k :: 0 <= k < |ds| ==> ExprBelow(cfg, ds[k].cond, c) && ds[k].sym in cfg.At(c).syms
    ensures var d := KnownChoiceDefault(cfg, u, ca, ds);
            d.Some? ==> d.value == FirstChoiceDefault(cfg, env, ds)
  {
    if ds != [] {
      ExprSound(cfg, u, ca, env, n, c, ds[0].cond);
      MemberLevel(cfg, c, ds[0].sym);
      assert SoundAt(cfg, ca, env, n, ds[0].sym);
      ChoiceDefaultSound(cfg, u, ca, env, n, c, ds[1..]);
    }
  }

  lemma {:induction false} FirstVisibleSound(cfg: Config, u: User, ca: Caches, env: Env, n: nat, c: nat, syms: seq<nat>)
    requires Setting(cfg, u, ca, env, n) && c < |cfg.items| && cfg.At(c).Choice? && n >= SelLevel(cfg, c)
    requires forall s :: s in syms ==> s in cfg.At(c).syms
    ensures var d := KnownFirstVisible(ca, syms); d.Some? ==> d.value == FirstVisible(env, syms)
  {
    if syms != [] {
      MemberLevel(cfg, c, syms[0]);
      assert SoundAt(cfg, ca, env, n, syms[0]);
      FirstVisibleSound(cfg, u, ca, env, n, c, syms[1..]);
    }
  }

  lemma {:induction false} SelSound(cfg: Config, u: User, ca: Caches, env: Env, n: nat, c: nat)
    requires Setting(cfg, u, ca, env, n) && c < |cfg.items| && cfg.At(c).Choice? && n >= SelLevel(cfg, c)
    ensures KnownSel(cfg, u, ca, c).Some? ==> KnownSel(cfg, u, ca, c).value == ValAt(env, c).sel
    ensures KnownSelFromDefaults(cfg, u, ca, c).Some? ==>
              KnownSelFromDefaults(cfg, u, ca, c).value == SelectionFromDefaults(cfg, env, c)
  {
    EnvAt(cfg, u, env, c);
    assert ItemWellFormed(cfg, c);
    ModeSound(cfg, u, ca, env, n, c);
    if u[c].sel.Some? {
      MemberLevel(cfg, c, u[c].sel.value);
      assert SoundAt(cfg, ca, env, n, u[c].sel.value);
    }
    ChoiceDefaultSound(cfg, u, ca, env, n, c, cfg.At(c).choiceDefaults);
    FirstVisibleSound(cfg, u, ca, env, n, c, cfg.At(c).syms);
  }

  lemma {:induction false} DefaultStrSound(cfg: Config, u: User, ca: Caches, env: Env, n: nat, i: nat)
    requires Setting(cfg, u, ca, env, n) && i < |cfg.items| && n >= StrLevel(cfg, i)
    requires cfg.At(i).Symbol? && !IsBoolTri(cfg.At(i).typ)
    ensures var d := KnownDefaultStr(cfg, u, ca, cfg.At(i).defaults);
            d.Some? ==> d.value.0 == DefaultStr(cfg, env, cfg.At(i).defaults)
                        && d.value.1 == ActiveDefault(cfg, env, cfg.At(i).defaults).Some?
  {
    assert ItemWellFormed(cfg, i);
    DefaultSound(cfg, u, ca, env, n, i, cfg.At(i).defaults);
    var d := KnownDefault(cfg, u, ca, cfg.At(i).defaults);
    if d.Some? && d.value.Some? {
      assert OperandBelow(cfg, d.value.value.value.item, i);
      StrSound(cfg, u, ca, env, n, d.value.value.value.item);
    }
  }

  lemma {:induction false} BoundsSound(cfg: Config, u: User, ca: Caches, env: Env, n: nat, i: nat)
    requires Setting(cfg, u, ca, env, n) && i < |cfg.items| && n >= StrLevel(cfg, i) && cfg.At(i).Symbol?
    ensures var b := KnownBounds(cfg, u, ca, cfg.At(i)); b.Some? ==> b.value == Bounds(cfg, env, cfg.At(i))
  {
    assert ItemWellFormed(cfg, i);
    RangeSound(cfg, u, ca, env, n, i, cfg.At(i).ranges);
    var r := KnownRange(cfg, u, ca, cfg.At(i).ranges);
    if r.Some? && r.value.Some? {
      StrSound(cfg, u, ca, env, n, r.value.value.low);
      StrSound(cfg, u, ca, env, n, r.value.value.high);
    }
  }

  lemma {:induction false} StrResultSound(cfg: Config, u: User, ca: Caches, env: Env, n: nat, i: nat)
    requires Setting(cfg, u, ca, env, n) && i < |cfg.items| && n >= StrLevel(cfg, i) && cfg.At(i).Symbol?
    ensures var r := KnownStrResult(cfg, u, ca, i);
            r.Some? ==> r.value.0 == ValAt(env, i).str
                        && (!IsBoolTri(cfg.At(i).typ) ==> r.value.1 == WrittenToConf(cfg, env, i))
  {
    EnvAt(cfg, u, env, i);
    assert SoundAt(cfg, ca, env, n, i);
    if !IsBoolTri(cfg.At(i).typ) {
      DefaultStrSound(cfg, u, ca, env, n, i);
      BoundsSound(cfg, u, ca, env, n, i);
    }
  }

  lemma {:induction false} AsgSound(cfg: Config, u: User, ca: Caches, env: Env, n: nat, i: nat)
    requires Setting(cfg, u, ca, env, n) && i < |cfg.items| && n >= StrLevel(cfg, i)
    ensures KnownAsg(cfg, u, ca, i).Some? ==> KnownAsg(cfg, u, ca, i).value == Assignable(cfg, env, i)
  {
    hide KnownExpr, ExprValue;
    assert SoundAt(cfg, ca, env, n, i);
    assert ItemWellFormed(cfg, i);
    var it := cfg.At(i);
    if !it.Const? && it.typ == Tristate { SymTriSound(cfg, u, ca, env, n, cfg.modules); }
    if it.Symbol? {
      ExprSound(cfg, u, ca, env, n, i, it.revDep);
      ExprSound(cfg, u, ca, env, n, i, it.weakRevDep);
    }
  }

  lemma {:induction false} SupportedSettles(cfg: Config, u: User, ca: Caches, env: Env, n: nat)
    requires Setting(cfg, u, ca, env, n) && Supported(cfg, u, ca)
    ensures SoundBelow(cfg, ca, env, n + 1)
  {
    var m := n + 1;
    forall i: nat ensures SoundAt(cfg, ca, env, m, i) {
      if i < |cfg.items| {
        assert SupportedAt(cfg, u, ca, i);
        assert SoundAt(cfg, ca, env, n, i);
        if VisLevel(cfg, i) == n { VisSound(cfg, u, ca, env, n, i); }
        if cfg.At(i).Symbol? && TriLevel(cfg, i) == n { TriSound(cfg, u, ca, env, n, i); }
        if cfg.At(i).Choice? && SelLevel(cfg, i) == n { SelSound(cfg, u, ca, env, n, i); }
        if cfg.At(i).Symbol? && StrLevel(cfg, i) == n { StrResultSound(cfg, u, ca, env, n, i); }
      }
    }
  }

  lemma {:induction false} SupportedSoundBelow(cfg: Config, u: User, ca: Caches, env: Env, n: nat)
    requires WellFormed(cfg) && ValidUser(cfg, u) && Solves(cfg, u, env) && |ca| == |cfg.items|
    requires Supported(cfg, u, ca)
    ensures SoundBelow(cfg, ca, env, n)
  {
    if n > 0 {
      SupportedSoundBelow(cfg, u, ca, env, n - 1);
      SupportedSettles(cfg, u, ca, env, n - 1);
    }
  }

  /** Every cached field of the item is what evaluating from scratch gives. */
  ghost predicate CoherentAt(cfg: Config, ca: Caches, env: Env, i: nat) {
    var c, v, it := CacheAt(ca, i), ValAt(env, i), cfg.At(i);
    && (c.vis.Some? ==> c.vis.value == v.vis)
    && (it.Symbol? && c.tri.Some? ==> c.tri.value == v.tri)
    && (it.Symbol? && c.str.Some? ==> c.str.value == v.str)
    && (it.Choice? && c.sel.Some? ==> c.sel.value == v.sel)
    && (c.asg.Some? ==> c.asg.value == Assignable(cfg, env, i))
    && (it.Symbol? && (if IsBoolTri(it.typ) then c.tri.Some? else c.str.Some?) ==>
          c.writes == WrittenToConf(cfg, env, i))
  }

  lemma {:induction false} SupportedCoherent(cfg: Config, u: User, ca: Caches, i: nat)
    requires WellFormed(cfg) && ValidUser(cfg, u) && |ca| == |cfg.items| && Supported(cfg, u, ca)
    requires i < |cfg.items|
    ensures CoherentAt(cfg, ca, Values(cfg, u), i)
    ensures KnownTri(cfg, u, ca, i).Some? ==> KnownTri(cfg, u, ca, i).value == Values(cfg, u)[i].tri
    ensures KnownStr(cfg, ca, i).Some? ==> KnownStr(cfg, ca, i).value == Values(cfg, u)[i].str
    ensures cfg.At(i).Choice? && KnownSelFromDefaults(cfg, u, ca, i).Some? ==>
              KnownSelFromDefaults(cfg, u, ca, i).value == SelectionFromDefaults(cfg, Values(cfg, u), i)
  {
    var env, n := Values(cfg, u), 8 * cfg.Rank(i) + 8;
    SupportedSoundBelow(cfg, u, ca, env, n);
    assert SoundAt(cfg, ca, env, n, i);
    assert SupportedAt(cfg, u, ca, i);
    AsgSound(cfg, u, ca, env, n, i);
    if cfg.At(i).Symbol? {
      TriSound(cfg, u, ca, env, n, i);
      StrResultSound(cfg, u, ca, env, n, i);
    }
    if cfg.At(i).Choice? { ModeSound(cfg, u, ca, env, n, i); SelSound(cfg, u, ca, env, n, i); }
    else { SymTriSound(cfg, u, ca, env, n, i); }
    StrSound(cfg, u, ca, env, n, i);
  }
}
