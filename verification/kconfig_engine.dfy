/**
  The configuration engine: cached, mutable symbol and choice state. Reads fill caches on demand;
  assignments clear the caches of the item and, recursively, of cached items that depend on it.
  */
module KconfigEngine {
  import opened Basics
  import opened Numbers
  import opened KconfigModel
  import opened KconfigCache
  import opened KconfigCoherence
  import opened KconfigSupport

  /** A value passed to set_value: n/m/y as 0/1/2, or text. */
  datatype Value = TriV(t: Tri) | StrV(s: string)

  function Normal(typ: SymType, val: Value): Value {
    if IsBoolTri(typ) && val == StrV("n") then TriV(0)
    else if IsBoolTri(typ) && val == StrV("m") then TriV(1)
    else if IsBoolTri(typ) && val == StrV("y") then TriV(2)
    else val
  }

  /** The value has a form that the type accepts. */
  predicate Accepts(typ: SymType, val: Value) {
    match typ
    case Bool => val == TriV(0) || val == TriV(2)
    case Tristate => val.TriV?
    case String => val.StrV?
    case Key => val.StrV?
    case Int => val.StrV? && ParseInt(val.s, 10).Some?
    case Hex => val.StrV? && ParseInt(val.s, 16).Some? && ParseInt(val.s, 16).value >= 0
    case Unknown => false
  }

  function UserOf(val: Value, sel: Option<nat>): UserValue {
    match val
    case TriV(t) => UserValue(Some(t), None, sel)
    case StrV(s) => UserValue(None, Some(s), sel)
  }

  /** User values as stored: only values the type accepts; only choices have selections. */
  ghost predicate TypedAt(cfg: Config, u: User, i: nat) {
    match cfg.At(i)
    case Const(_, _, _) => UserAt(u, i) == UNSET
    case Choice(typ, _, _, _, _) =>
      UserAt(u, i).str.None? && (UserAt(u, i).tri.Some? ==> IsBoolTri(typ) && Accepts(typ, TriV(UserAt(u, i).tri.value)))
    case Symbol(_, typ, _, _, _, _, _, _, _, _) =>
      UserAt(u, i) == UNSET
      || exists val :: Accepts(typ, val) && UserAt(u, i) == UserOf(val, None)
  }

  ghost predicate TypedUser(cfg: Config, u: User) {
    forall i: nat :: TypedAt(cfg, u, i)
  }

  /** The effect of assigning a value to a symbol: y also makes a choice symbol the user selection. */
  function SetUser(cfg: Config, u: User, i: nat, val: Value): User
    requires i < |cfg.items| == |u| && cfg.At(i).Symbol?
  {
    var it, v := cfg.At(i), Normal(cfg.At(i).typ, val);
    if !Accepts(it.typ, v) then u
    else
      var u' := u[i := UserOf(v, None)];
      if it.choice.Some? && v == TriV(2) && it.choice.value < |u| then
        u'[it.choice.value := u'[it.choice.value].(sel := Some(i))]
      else u'
  }

  function SetMode(cfg: Config, u: User, c: nat, val: Value): User
    requires c < |cfg.items| == |u| && cfg.At(c).Choice?
  {
    var v := Normal(Tristate, val);
    if IsBoolTri(cfg.At(c).typ) && Accepts(cfg.At(c).typ, v) then u[c := u[c].(tri := Some(v.t))] else u
  }

  /** Which items a .config file assigned: the symbol, and its choice when it is set to y. */
  function SetFlags(cfg: Config, flags: seq<bool>, i: nat, val: Value): seq<bool>
    requires i < |cfg.items| == |flags| && cfg.At(i).Symbol?
  {
    var it, v := cfg.At(i), Normal(cfg.At(i).typ, val);
    if !Accepts(it.typ, v) then flags
    else if it.choice.Some? && v == TriV(2) && it.choice.value < |flags| then flags[i := true][it.choice.value := true]
    else flags[i := true]
  }

  function SetModeFlags(cfg: Config, flags: seq<bool>, c: nat, val: Value): seq<bool>
    requires c < |cfg.items| == |flags| && cfg.At(c).Choice?
  {
    if IsBoolTri(cfg.At(c).typ) && Accepts(cfg.At(c).typ, Normal(Tristate, val)) then flags[c := true] else flags
  }

  lemma {:induction false} SetUserValid(cfg: Config, u: User, i: nat, val: Value)
    requires WellFormed(cfg) && ValidUser(cfg, u) && TypedUser(cfg, u) && i < |cfg.items| && cfg.At(i).Symbol?
    ensures ValidUser(cfg, SetUser(cfg, u, i, val)) && TypedUser(cfg, SetUser(cfg, u, i, val))
  {
    var u', v := SetUser(cfg, u, i, val), Normal(cfg.At(i).typ, val);
    assert ItemWellFormed(cfg, i);
    forall k: nat ensures TypedAt(cfg, u', k) {
      assert TypedAt(cfg, u, k);
      if k == i && Accepts(cfg.At(i).typ, v) { assert UserAt(u', k) == UserOf(v, None); }
    }
  }

  lemma {:induction false} SetModeValid(cfg: Config, u: User, c: nat, val: Value)
    requires ValidUser(cfg, u) && TypedUser(cfg, u) && c < |cfg.items| && cfg.At(c).Choice?
    ensures ValidUser(cfg, SetMode(cfg, u, c, val)) && TypedUser(cfg, SetMode(cfg, u, c, val))
  {
    forall k: nat ensures TypedAt(cfg, SetMode(cfg, u, c, val), k) { assert TypedAt(cfg, u, k); }
  }

  lemma {:induction false} UnsetValid(cfg: Config, u: User, i: nat)
    requires ValidUser(cfg, u) && TypedUser(cfg, u) && i < |cfg.items|
    ensures ValidUser(cfg, u[i := UNSET]) && TypedUser(cfg, u[i := UNSET])
  {
    var u' := u[i := UNSET];
    forall k: nat ensures TypedAt(cfg, u', k) { assert TypedAt(cfg, u, k); }
  }

  ghost predicate Grew(ca: Caches, cb: Caches) {
    |ca| == |cb| && forall k :: 0 <= k < |ca| ==> Extends(ca[k], cb[k])
  }

  lemma {:induction false} GrewKeeps(cfg: Config, u: User, ca: Caches, cb: Caches, ks: set<nat>)
    requires Grew(ca, cb)
    ensures KeepsAll(cfg, u, ca, u, cb, ks)
  {
    forall k: nat ensures Keeps(cfg, u, ca, u, cb, k) {
      if k < |ca| { assert Extends(ca[k], cb[k]); }
    }
  }

  lemma {:induction false} ExprGrew(cfg: Config, u: User, ca: Caches, cb: Caches, e: Expr)
    requires Grew(ca, cb) && KnownExpr(cfg, u, ca, e).Some?
    ensures KnownExpr(cfg, u, cb, e) == KnownExpr(cfg, u, ca, e)
  {
    GrewKeeps(cfg, u, ca, cb, ExprItems(e));
    ExprKept(cfg, u, ca, u, cb, e, ExprItems(e));
  }

  lemma {:induction false} MaxGrew(cfg: Config, u: User, ca: Caches, cb: Caches, es: seq<Expr>)
    requires Grew(ca, cb) && KnownMax(cfg, u, ca, es).Some?
    ensures KnownMax(cfg, u, cb, es) == KnownMax(cfg, u, ca, es)
  {
    GrewKeeps(cfg, u, ca, cb, ItemsOf(es));
    MaxKept(cfg, u, ca, u, cb, es, ItemsOf(es));
  }

  lemma {:induction false} DefaultGrew(cfg: Config, u: User, ca: Caches, cb: Caches, i: nat)
    requires WellFormed(cfg) && i < |cfg.items| && cfg.At(i).Symbol? && Grew(ca, cb)
    ensures var ds := cfg.At(i).defaults;
      && (KnownDefault(cfg, u, ca, ds).Some? ==> KnownDefault(cfg, u, cb, ds) == KnownDefault(cfg, u, ca, ds))
      && (KnownDefaultTri(cfg, u, ca, ds).Some? ==> KnownDefaultTri(cfg, u, cb, ds) == KnownDefaultTri(cfg, u, ca, ds))
  {
    var ks := DependsOn(cfg, i);
    DependsOnCovers(cfg, i, ks);
    GrewKeeps(cfg, u, ca, cb, ks);
    DefaultKept(cfg, u, ca, u, cb, cfg.At(i).defaults, ks);
    DefaultTriKept(cfg, u, ca, u, cb, cfg.At(i).defaults, ks);
  }

  lemma {:induction false} WantedGrew(cfg: Config, u: User, ca: Caches, cb: Caches, i: nat)
    requires WellFormed(cfg) && i < |cfg.items| && cfg.At(i).Symbol? && Grew(ca, cb)
    ensures KnownWanted(cfg, u, ca, i).Some? ==> KnownWanted(cfg, u, cb, i) == KnownWanted(cfg, u, ca, i)
  {
    var ks := DependsOn(cfg, i) + {i};
    DependsOnCovers(cfg, i, ks);
    GrewKeeps(cfg, u, ca, cb, ks);
    WantedKept(cfg, u, ca, u, cb, i, ks);
  }

  lemma {:induction false} BoundsGrew(cfg: Config, u: User, ca: Caches, cb: Caches, i: nat)
    requires WellFormed(cfg) && i < |cfg.items| && cfg.At(i).Symbol? && Grew(ca, cb)
    ensures KnownBounds(cfg, u, ca, cfg.At(i)).Some? ==>
              KnownBounds(cfg, u, cb, cfg.At(i)) == KnownBounds(cfg, u, ca, cfg.At(i))
    ensures KnownRange(cfg, u, ca, cfg.At(i).ranges).Some? ==>
              KnownRange(cfg, u, cb, cfg.At(i).ranges) == KnownRange(cfg, u, ca, cfg.At(i).ranges)
  {
    var ks := DependsOn(cfg, i);
    DependsOnCovers(cfg, i, ks);
    GrewKeeps(cfg, u, ca, cb, ks);
    BoundsKept(cfg, u, ca, u, cb, i, ks);
    RangeKept(cfg, u, ca, u, cb, cfg.At(i).ranges, ks);
  }

  lemma {:induction false} StrGrew(cfg: Config, ca: Caches, cb: Caches, i: nat)
    requires Grew(ca, cb)
    ensures KnownStr(cfg, ca, i).Some? ==> KnownStr(cfg, cb, i) == KnownStr(cfg, ca, i)
    ensures KnownSymTri(cfg, ca, i).Some? ==> KnownSymTri(cfg, cb, i) == KnownSymTri(cfg, ca, i)
    ensures KnownNum(cfg, ca, i).Some? ==> KnownNum(cfg, cb, i) == KnownNum(cfg, ca, i)
  {
    if i < |ca| { assert Extends(ca[i], cb[i]); }
  }

  lemma {:induction false} ModeGrew(cfg: Config, u: User, ca: Caches, cb: Caches, c: nat)
    requires Grew(ca, cb) && cfg.At(c).Choice?
    ensures KnownMode(cfg, u, ca, c).Some? ==> KnownMode(cfg, u, cb, c) == KnownMode(cfg, u, ca, c)
  {
    StrGrew(cfg, ca, cb, cfg.modules);
    if c < |ca| { assert Extends(ca[c], cb[c]); }
  }

  // Entries already passed by a search for the first active default, range or visible symbol

  ghost predicate OffDefaults(cfg: Config, u: User, ca: Caches, ds: seq<Default>) {
    forall d :: d in ds ==> KnownExpr(cfg, u, ca, d.cond) == Some(0)
  }

  lemma {:induction false} OffDefaultsGrew(cfg: Config, u: User, ca: Caches, cb: Caches, ds: seq<Default>)
    requires Grew(ca, cb) && OffDefaults(cfg, u, ca, ds)
    ensures OffDefaults(cfg, u, cb, ds)
  {
    forall d | d in ds ensures KnownExpr(cfg, u, cb, d.cond) == Some(0) { ExprGrew(cfg, u, ca, cb, d.cond); }
  }

  lemma {:induction false} OffDefaultsSkip(cfg: Config, u: User, ca: Caches, ds: seq<Default>, k: nat)
    requires k <= |ds| && OffDefaults(cfg, u, ca, ds[..k])
    ensures KnownDefault(cfg, u, ca, ds) == KnownDefault(cfg, u, ca, ds[k..])
  {
    if k > 0 {
      assert ds[0] in ds[..k];
      forall d | d in ds[1..][..k - 1] ensures d in ds[..k] {}
      OffDefaultsSkip(cfg, u, ca, ds[1..], k - 1);
      assert ds[1..][k - 1..] == ds[k..];
    }
  }

  ghost predicate OffRanges(cfg: Config, u: User, ca: Caches, rs: seq<Range>) {
    forall r :: r in rs ==> KnownExpr(cfg, u, ca, r.cond) == Some(0)
  }

  lemma {:induction false} OffRangesGrew(cfg: Config, u: User, ca: Caches, cb: Caches, rs: seq<Range>)
    requires Grew(ca, cb) && OffRanges(cfg, u, ca, rs)
    ensures OffRanges(cfg, u, cb, rs)
  {
    forall r | r in rs ensures KnownExpr(cfg, u, cb, r.cond) == Some(0) { ExprGrew(cfg, u, ca, cb, r.cond); }
  }

  lemma {:induction false} OffRangesSkip(cfg: Config, u: User, ca: Caches, rs: seq<Range>, k: nat)
    requires k <= |rs| && OffRanges(cfg, u, ca, rs[..k])
    ensures KnownRange(cfg, u, ca, rs) == KnownRange(cfg, u, ca, rs[k..])
  {
    if k > 0 {
      assert rs[0] in rs[..k];
      forall r | r in rs[1..][..k - 1] ensures r in rs[..k] {}
      OffRangesSkip(cfg, u, ca, rs[1..], k - 1);
      assert rs[1..][k - 1..] == rs[k..];
    }
  }

  ghost predicate OffChoiceDefaults(cfg: Config, u: User, ca: Caches, ds: seq<ChoiceDefault>) {
    forall d :: d in ds ==>
      KnownExpr(cfg, u, ca, d.cond) == Some(0)
      || (KnownExpr(cfg, u, ca, d.cond).Some? && CacheAt(ca, d.sym).vis == Some(0))
  }

  lemma {:induction false} OffChoiceDefaultsGrew(cfg: Config, u: User, ca: Caches, cb: Caches, ds: seq<ChoiceDefault>)
    requires Grew(ca, cb) && OffChoiceDefaults(cfg, u, ca, ds)
    ensures OffChoiceDefaults(cfg, u, cb, ds)
  {
    forall d | d in ds
      ensures KnownExpr(cfg, u, cb, d.cond) == Some(0)
              || (KnownExpr(cfg, u, cb, d.cond).Some? && CacheAt(cb, d.sym).vis == Some(0))
    {
      ExprGrew(cfg, u, ca, cb, d.cond);
    }
  }

  lemma {:induction false} OffChoiceDefaultsSkip(cfg: Config, u: User, ca: Caches, ds: seq<ChoiceDefault>, k: nat)
    requires k <= |ds| && OffChoiceDefaults(cfg, u, ca, ds[..k])
    ensures KnownChoiceDefault(cfg, u, ca, ds) == KnownChoiceDefault(cfg, u, ca, ds[k..])
  {
    if k > 0 {
      assert ds[0] in ds[..k];
      forall d | d in ds[1..][..k - 1] ensures d in ds[..k] {}
      OffChoiceDefaultsSkip(cfg, u, ca, ds[1..], k - 1);
      assert ds[1..][k - 1..] == ds[k..];
    }
  }

  ghost predicate Invisible(ca: Caches, syms: seq<nat>) {
    forall s :: s in syms ==> CacheAt(ca, s).vis == Some(0)
  }

  lemma {:induction false} InvisibleSkip(ca: Caches, syms: seq<nat>, k: nat)
    requires k <= |syms| && Invisible(ca, syms[..k])
    ensures KnownFirstVisible(ca, syms) == KnownFirstVisible(ca, syms[k..])
  {
    if k > 0 {
      assert syms[0] in syms[..k];
      forall s | s in syms[1..][..k - 1] ensures s in syms[..k] {}
      InvisibleSkip(ca, syms[1..], k - 1);
      assert syms[1..][k - 1..] == syms[k..];
    }
  }

  function CachedCount(ca: Caches): nat {
    if ca == [] then 0 else CachedCount(ca[..|ca| - 1]) + (if ca[|ca| - 1].vis.Some? then 1 else 0)
  }

  lemma {:induction false} PrunedCount(ca: Caches, cb: Caches)
    requires Pruned(ca, cb)
    ensures CachedCount(cb) <= CachedCount(ca)
    ensures (exists k :: 0 <= k < |ca| && ca[k].vis.Some? && cb[k].vis.None?) ==> CachedCount(cb) < CachedCount(ca)
  {
    if ca != [] { PrunedCount(ca[..|ca| - 1], cb[..|cb| - 1]); }
  }

  /** Nothing that depends on item `k` has cached values. */
  ghost predicate NoneAbove(cfg: Config, ca: Caches, k: nat) {
    forall j :: 0 <= j < |ca| && k in DependsOn(cfg, j) ==> ca[j].vis.None?
  }

  ghost predicate AllClear(ca: Caches) {
    forall j :: 0 <= j < |ca| ==> ca[j].vis.None?
  }

  /** The outcome of invalidating `root`: it and every item that lost its caches have no cached dependents. */
  ghost predicate Invalidated(cfg: Config, ca: Caches, cb: Caches, root: nat) {
    && Pruned(ca, cb) && root < |cb| && cb[root].vis.None? && cfg.modules < |cb|
    && NoneAbove(cfg, cb, root)
    && (forall k :: 0 <= k < |cb| && cb[k] != ca[k] ==> NoneAbove(cfg, cb, k))
    && (root == cfg.modules || cb[cfg.modules] != ca[cfg.modules] ==> AllClear(cb))
  }

  lemma {:induction false} NoneAboveKept(cfg: Config, ca: Caches, cb: Caches, k: nat)
    requires Pruned(ca, cb) && NoneAbove(cfg, ca, k)
    ensures NoneAbove(cfg, cb, k)
  {
  }

  /** Invalidation of `root` under way: the dependents outside `todo` are done. */
  ghost predicate Invalidating(cfg: Config, ca: Caches, cb: Caches, root: nat, todo: set<nat>) {
    && Pruned(ca, cb) && root < |cb| && cb[root].vis.None? && cfg.modules < |cb| && root != cfg.modules
    && (forall j :: 0 <= j < |cb| && root in DependsOn(cfg, j) && j !in todo ==> cb[j].vis.None?)
    && (forall k :: 0 <= k < |cb| && k != root && cb[k] != ca[k] ==> NoneAbove(cfg, cb, k))
    && (cb[cfg.modules] != ca[cfg.modules] ==> AllClear(cb))
  }

  lemma {:induction false} DependentDone(cfg: Config, ca: Caches, cb: Caches, cc: Caches, root: nat, todo: set<nat>, j: nat)
    requires Invalidating(cfg, ca, cb, root, todo) && j < |cb|
    requires if cb[j].vis.Some? then Invalidated(cfg, cb, cc, j) else cc == cb
    ensures Invalidating(cfg, ca, cc, root, todo - {j})
  {
    forall k | 0 <= k < |cc| && k != root && cc[k] != ca[k] ensures NoneAbove(cfg, cc, k) {
      if cc[k] == cb[k] { NoneAboveKept(cfg, cb, cc, k); }
    }
  }

  class Kconfig {
    const cfg: Config
    const dependents: seq<set<nat>>
    var user: User
    var cache: Caches
    var wasSet: seq<bool>

    ghost predicate Shaped()
      reads this
    {
      WellFormed(cfg) && |cache| == |wasSet| == |cfg.items| && dependents == Dependents(cfg)
    }

    ghost predicate Valid()
      reads this
    {
      Shaped() && ValidUser(cfg, user) && TypedUser(cfg, user) && Supported(cfg, user, cache)
    }

    constructor (cfg: Config)
      requires WellFormed(cfg)
      ensures Valid() && this.cfg == cfg
      ensures forall i :: 0 <= i < |user| ==> user[i] == UNSET
    {
      this.cfg := cfg;
      dependents := Dependents(cfg);
      user := seq(|cfg.items|, _ => UNSET);
      cache := seq(|cfg.items|, _ => EMPTY);
      wasSet := seq(|cfg.items|, _ => false);
    }

    // -------------------------------------------------------------------------------------------
    // Invalidation

    method RecInvalidate(i: nat)
      requires Shaped() && i < |cache| && !cfg.At(i).Const?
      modifies this`cache
      ensures Shaped() && Invalidated(cfg, old(cache), cache, i)
      decreases CachedCount(cache) + (if cache[i].vis.None? then 1 else 0)
    {
      if i == cfg.modules {
        cache := seq(|cache|, k requires 0 <= k < |cache| reads this => Cleared(cache[k]));
        return;
      }
      cache := cache[i := Cleared(cache[i])];
      PrunedCount(old(cache), cache);
      ghost var start := CachedCount(cache);
      var todo := dependents[i];
      while todo != {}
        invariant Shaped() && todo <= dependents[i] && CachedCount(cache) <= start
        invariant Invalidating(cfg, old(cache), cache, i, todo)
        decreases todo
      {
        var j :| j in todo;
        ghost var before := cache;
        if cache[j].vis.Some? {
          RecInvalidate(j);
          PrunedCount(before, cache);
        }
        DependentDone(cfg, old(cache), before, cache, i, todo, j);
        todo := todo - {j};
      }
    }

    /** Clearing from `root` after user values changed; everything still cached stays supported. */
    ghost method Reestablish(was: User, ca: Caches, root: nat, s: nat)
      requires Shaped() && s < |cache| && Invalidated(cfg, ca, cache, root)
      requires ValidUser(cfg, was) && ValidUser(cfg, user) && TypedUser(cfg, user) && Supported(cfg, was, ca)
      requires forall k :: 0 <= k < |user| && k != root && k != s ==> user[k] == was[k]
      requires s != root ==> cfg.At(s).Symbol? && cfg.At(s).choice == Some(root)
      ensures Valid()
    {
      var dropped := set k: nat | k < |cache| && (k == root || cache[k] != ca[k]);
      if s != root && cache[s].vis.Some? {
        assert SupportedAt(cfg, was, ca, s);
        if ca[s].vis.value != 0 { VisibleDependsOnChoice(cfg, was, ca, s); }
      }
      PrunedSupported(cfg, was, ca, user, cache, dropped);
    }

    method InvalidateIfPrompt(i: nat, ghost was: User)
      requires Shaped() && i < |cache| && cfg.At(i).Symbol?
      requires ValidUser(cfg, was) && ValidUser(cfg, user) && TypedUser(cfg, user) && Supported(cfg, was, cache)
      requires forall k :: 0 <= k < |user| && k != i ==> user[k] == was[k]
      modifies this`cache
      ensures Valid()
    {
      if cfg.At(i).prompts != [] {
        ghost var ca := cache;
        RecInvalidate(i);
        Reestablish(was, ca, i, i);
      } else {
        assert SupportedAt(cfg, was, cache, i);
        PrunedSupported(cfg, was, cache, user, cache, {});
      }
    }

    // -------------------------------------------------------------------------------------------
    // Assignments

    method SetValue(i: nat, value: Value) returns (ok: bool)
      requires Valid() && i < |cache| && cfg.At(i).Symbol?
      modifies this
      ensures Valid() && user == SetUser(cfg, old(user), i, value)
      ensures wasSet == SetFlags(cfg, old(wasSet), i, value)
      ensures ok == Accepts(cfg.At(i).typ, Normal(cfg.At(i).typ, value))
    {
      ghost var was, ca := user, cache;
      SetUserValid(cfg, user, i, value);
      var it, val := cfg.At(i), Normal(cfg.At(i).typ, value);
      assert TypedAt(cfg, user, i);
      if user[i] == UserOf(val, None) && it.choice.None? {
        wasSet := wasSet[i := true];
        return true;
      }
      if !Accepts(it.typ, val) {
        return false;
      }
      user := user[i := UserOf(val, None)];
      wasSet := wasSet[i := true];
      if it.choice.Some? && val == TriV(2) {
        var c := it.choice.value;
        assert ItemWellFormed(cfg, i);
        user := user[c := user[c].(sel := Some(i))];
        wasSet := wasSet[c := true];
        RecInvalidate(c);
        Reestablish(was, ca, c, i);
      } else {
        InvalidateIfPrompt(i, was);
      }
      return true;
    }

    method UnsetValue(i: nat)
      requires Valid() && i < |cache| && cfg.At(i).Symbol?
      modifies this
      ensures Valid() && user == old(user)[i := UNSET] && wasSet == old(wasSet)
    {
      ghost var was := user;
      UnsetValid(cfg, user, i);
      assert TypedAt(cfg, user, i);
      if user[i].tri.Some? || user[i].str.Some? {
        user := user[i := UNSET];
        InvalidateIfPrompt(i, was);
      }
    }

    method SetChoiceMode(c: nat, value: Value) returns (ok: bool)
      requires Valid() && c < |cache| && cfg.At(c).Choice?
      modifies this
      ensures Valid() && user == SetMode(cfg, old(user), c, value)
      ensures wasSet == SetModeFlags(cfg, old(wasSet), c, value)
      ensures ok == (IsBoolTri(cfg.At(c).typ) && Accepts(cfg.At(c).typ, Normal(Tristate, value)))
    {
      ghost var was, ca := user, cache;
      SetModeValid(cfg, user, c, value);
      assert TypedAt(cfg, user, c);
      var val := Normal(Tristate, value);
      if val.TriV? && user[c].tri == Some(val.t) {
        wasSet := wasSet[c := true];
        return true;
      }
      if !(IsBoolTri(cfg.At(c).typ) && Accepts(cfg.At(c).typ, val)) {
        return false;
      }
      user := user[c := user[c].(tri := Some(val.t))];
      wasSet := wasSet[c := true];
      RecInvalidate(c);
      Reestablish(was, ca, c, c);
      return true;
    }

    method UnsetChoice(c: nat)
      requires Valid() && c < |cache| && cfg.At(c).Choice?
      modifies this
      ensures Valid() && user == old(user)[c := UNSET] && wasSet == old(wasSet)
    {
      ghost var was, ca := user, cache;
      UnsetValid(cfg, user, c);
      assert TypedAt(cfg, user, c);
      if user[c].tri.Some? || user[c].sel.Some? {
        user := user[c := user[c].(tri := None, sel := None)];
        RecInvalidate(c);
        Reestablish(was, ca, c, c);
      }
    }

    // -------------------------------------------------------------------------------------------
    // Reads. The second component of each measure orders the stages within one rank.

    method EvalExpr(e: Expr, ghost i: nat, ghost stage: nat) returns (v: Tri)
      requires Valid() && i <= |cache| && ExprBelow(cfg, e, i)
      requires stage >= if cfg.At(i).Choice? then 1 else 3
      modifies this`cache
      ensures Valid() && Grew(old(cache), cache) && KnownExpr(cfg, user, cache, e) == Some(v)
      decreases cfg.Rank(i), stage, 0, e
    {
      hide Supported, Values, TypedUser, Dependents;
      match e
      case Ref(j) =>
        if i < |cache| { assert ItemWellFormed(cfg, i); }
        if cfg.At(j).Choice? { v := ChoiceMode(j); } else { v := TriValueOf(j); }
      case And(a, b) =>
        v := EvalExpr(a, i, stage);
        if v != 0 {
          ghost var mid := cache;
          var w := EvalExpr(b, i, stage);
          ExprGrew(cfg, user, mid, cache, a);
          v := Min(v, w);
        }
      case Or(a, b) =>
        v := EvalExpr(a, i, stage);
        if v != 2 {
          ghost var mid := cache;
          var w := EvalExpr(b, i, stage);
          ExprGrew(cfg, user, mid, cache, a);
          v := Max(v, w);
        }
      case Not(a) =>
        v := EvalExpr(a, i, stage);
        v := 2 - v;
      case Rel(op, a, b) =>
        var comp := CompareSyms(a, b, i, stage);
        v := RelValue(op, comp);
    }

    method SymNum(a: nat) returns (n: Option<int>)
      requires Valid() && a < |cache| && !cfg.At(a).Choice?
      modifies this`cache
      ensures Valid() && Grew(old(cache), cache) && KnownNum(cfg, cache, a) == Some(n)
      decreases cfg.Rank(a), 7
    {
      hide Supported, Values, TypedUser, Dependents;
      if IsBoolTri(cfg.At(a).typ) {
        var t: int := TriValueOf(a);
        n := Some(t);
      } else {
        var s := StrValueOf(a);
        n := ParseInt(s, Base(cfg.At(a).typ));
      }
    }

    method CompareText(a: nat, b: nat, ghost i: nat, ghost stage: nat) returns (comp: int)
      requires Valid() && i <= |cache| && OperandBelow(cfg, a, i) && OperandBelow(cfg, b, i)
      modifies this`cache
      ensures Valid() && Grew(old(cache), cache) && KnownStrCmp(cfg, cache, a, b) == Some(comp)
      decreases cfg.Rank(i), 0, 0
    {
      hide Supported, Values, TypedUser, Dependents;
      var s := StrValueOf(a);
      ghost var mid := cache;
      var t := StrValueOf(b);
      StrGrew(cfg, mid, cache, a);
      comp := StrCmp(s, t);
    }

    method CompareSyms(a: nat, b: nat, ghost i: nat, ghost stage: nat) returns (comp: int)
      requires Valid() && i <= |cache| && OperandBelow(cfg, a, i) && OperandBelow(cfg, b, i)
      modifies this`cache
      ensures Valid() && Grew(old(cache), cache) && KnownCompare(cfg, cache, a, b) == Some(comp)
      decreases cfg.Rank(i), 0, 1
    {
      hide Supported, Values, TypedUser, Dependents;
      if ComparedAsText(cfg.At(a).typ, cfg.At(b).typ) {
        comp := CompareText(a, b, i, stage);
        return;
      }
      var x := SymNum(a);
      ghost var c1 := cache;
      if x.Some? {
        var y := SymNum(b);
        StrGrew(cfg, c1, cache, a);
        if y.Some? {
          comp := x.value - y.value;
          return;
        }
      }
      ghost var c2 := cache;
      comp := CompareText(a, b, i, stage);
      StrGrew(cfg, c2, cache, a);
      StrGrew(cfg, c2, cache, b);
    }

    method MaxPrompt(i: nat) returns (v: Tri)
      requires Valid() && i < |cache| && !cfg.At(i).Const?
      modifies this`cache
      ensures Valid() && Grew(old(cache), cache) && KnownMax(cfg, user, cache, cfg.At(i).prompts) == Some(v)
      decreases cfg.Rank(i), if cfg.At(i).Choice? then 1 else 3, 1
    {
      hide Supported, Values, TypedUser, Dependents, KnownExpr;
      v := 0;
      var es := cfg.At(i).prompts;
      assert ItemWellFormed(cfg, i);
      for k := 0 to |es|
        invariant Valid() && Grew(old(cache), cache) && KnownMax(cfg, user, cache, es[..k]) == Some(v)
      {
        ghost var mid := cache;
        var w := EvalExpr(es[k], i, if cfg.At(i).Choice? then 1 else 3);
        MaxGrew(cfg, user, mid, cache, es[..k]);
        assert es[..k + 1][..k] == es[..k];
        v := Max(v, w);
      }
      assert es[..|es|] == es;
    }

    method VisibilityOf(i: nat) returns (v: Tri)
      requires Valid() && i < |cache| && !cfg.At(i).Const?
      modifies this`cache
      ensures Valid() && Grew(old(cache), cache) && cache[i].vis == Some(v)
      ensures v == Values(cfg, user)[i].vis
      decreases cfg.Rank(i), if cfg.At(i).Choice? then 1 else 3, 2
    {
      hide Supported, Values, TypedUser, Dependents, KnownMax, KnownMode;
      if cache[i].vis.Some? {
        SupportedCoherent(cfg, user, cache, i);
        return cache[i].vis.value;
      }
      var it := cfg.At(i);
      v := MaxPrompt(i);
      if it.Symbol? && it.choice.Some? {
        v := VisInChoice(i, it.choice.value, v);
      } else if v == 1 {
        v := VisOfM(i);
      }
      StoreVis(i, v);
    }

    /** Visibility of a choice symbol whose prompts have value `v`. */
    method VisInChoice(i: nat, c: nat, v: Tri) returns (r: Tri)
      requires Valid() && i < |cache| && OwnChoice(cfg, i, c)
      requires KnownMax(cfg, user, cache, cfg.At(i).prompts) == Some(v)
      modifies this`cache
      ensures Valid() && Grew(old(cache), cache) && KnownVis(cfg, user, cache, i) == Some(r)
      decreases cfg.Rank(i), 3, 1
    {
      hide Supported, Values, TypedUser, Dependents, KnownMax, KnownMode;
      var it := cfg.At(i);
      assert ItemWellFormed(cfg, i);
      var mode := ChoiceMode(c);
      ghost var mid := cache;
      MaxGrew(cfg, user, old(cache), mid, it.prompts);
      if it.typ != Tristate {
        return if v == 0 || (cfg.At(c).typ == Tristate && mode != 2) then 0 else 2;
      }
      if v != 1 { return v; }
      if mode == 2 { return 0; }
      var m := ModulesValue(i);
      MaxGrew(cfg, user, mid, cache, it.prompts);
      ModeGrew(cfg, user, mid, cache, c);
      return if m == 0 then 2 else 1;
    }

    /** Visibility of an item outside choices whose prompts have value m. */
    method VisOfM(i: nat) returns (r: Tri)
      requires Valid() && i < |cache| && !cfg.At(i).Const? && (cfg.At(i).Symbol? ==> cfg.At(i).choice.None?)
      requires KnownMax(cfg, user, cache, cfg.At(i).prompts) == Some(1)
      modifies this`cache
      ensures Valid() && Grew(old(cache), cache) && KnownVis(cfg, user, cache, i) == Some(r)
      decreases cfg.Rank(i), if cfg.At(i).Choice? then 1 else 3, 1
    {
      hide Supported, Values, TypedUser, Dependents;
      assert ItemWellFormed(cfg, i);
      if cfg.At(i).typ != Tristate { return 2; }
      var m := ModulesValue(i);
      MaxGrew(cfg, user, old(cache), cache, cfg.At(i).prompts);
      return if m == 0 then 2 else 1;
    }

    method StoreVis(i: nat, v: Tri)
      requires Valid() && i < |cache| && KnownVis(cfg, user, cache, i) == Some(v)
      modifies this`cache
      ensures Valid() && Grew(old(cache), cache) && cache[i].vis == Some(v) && v == ValAt(Values(cfg, user), i).vis
    {
      if cache[i].vis.None? {
        ghost var cb := CacheVis(cfg, user, cache, i, v);
        cache := cache[i := cache[i].(vis := Some(v))];
      } else {
        assert SupportedAt(cfg, user, cache, i);
      }
      SupportedCoherent(cfg, user, cache, i);
    }

    method ModulesValue(ghost i: nat) returns (m: Tri)
      requires Valid() && i < |cache| && cfg.Rank(cfg.modules) < cfg.Rank(i)
      modifies this`cache
      ensures Valid() && Grew(old(cache), cache) && KnownModules(cfg, cache) == Some(m)
      decreases cfg.Rank(i), 0
    {
      hide Supported, Values, TypedUser, Dependents;
      m := TriValueOf(cfg.modules);
    }

    method ChoiceMode(c: nat) returns (v: Tri)
      requires Valid() && c < |cache| && cfg.At(c).Choice?
      modifies this`cache
      ensures Valid() && Grew(old(cache), cache) && KnownMode(cfg, user, cache, c) == Some(v)
      ensures v == Values(cfg, user)[c].tri
      decreases cfg.Rank(c), 2
    {
      hide Supported, Values, TypedUser, Dependents;
      assert ItemWellFormed(cfg, c);
      v := if cfg.At(c).optional then 0 else 1;
      if user[c].tri.Some? { v := Max(v, user[c].tri.value); }
      var vis := VisibilityOf(c);
      v := Min(v, vis);
      if v == 1 {
        if cfg.At(c).typ == Bool {
          v := 2;
        } else if cfg.At(c).typ == Tristate {
          ghost var mid := cache;
          var m := ModulesValue(c);
          assert Extends(mid[c], cache[c]);
          if m == 0 { v := 2; }
        }
      }
      SupportedCoherent(cfg, user, cache, c);
    }

    method FirstChoiceDefaultOf(c: nat) returns (r: Option<nat>)
      requires Valid() && c < |cache| && cfg.At(c).Choice?
      modifies this`cache
      ensures Valid() && Grew(old(cache), cache)
      ensures KnownChoiceDefault(cfg, user, cache, cfg.At(c).choiceDefaults) == Some(r)
      decreases cfg.Rank(c), 4, 1
    {
      hide Supported, Values, TypedUser, Dependents, KnownExpr, ExprBelow, ValidUser;
      var ds := cfg.At(c).choiceDefaults;
      assert ItemWellFormed(cfg, c);
      for k := 0 to |ds|
        invariant Valid() && Grew(old(cache), cache) && OffChoiceDefaults(cfg, user, cache, ds[..k])
      {
        ghost var c1 := cache;
        MemberLevel(cfg, c, ds[k].sym);
        var v := EvalExpr(ds[k].cond, c, 4);
        OffChoiceDefaultsGrew(cfg, user, c1, cache, ds[..k]);
        if v > 0 {
          ghost var c2 := cache;
          var vis := VisibilityOf(ds[k].sym);
          OffChoiceDefaultsGrew(cfg, user, c2, cache, ds[..k]);
          ExprGrew(cfg, user, c2, cache, ds[k].cond);
          if vis > 0 {
            OffChoiceDefaultsSkip(cfg, user, cache, ds, k);
            return Some(ds[k].sym);
          }
        }
        assert ds[..k + 1] == ds[..k] + [ds[k]];
      }
      assert ds[..|ds|] == ds;
      OffChoiceDefaultsSkip(cfg, user, cache, ds, |ds|);
      return None;
    }

    method FirstVisibleOf(c: nat) returns (r: Option<nat>)
      requires Valid() && c < |cache| && cfg.At(c).Choice?
      modifies this`cache
      ensures Valid() && Grew(old(cache), cache)
      ensures KnownFirstVisible(cache, cfg.At(c).syms) == Some(r)
      decreases cfg.Rank(c), 4, 1
    {
      hide Supported, Values, TypedUser, Dependents, ValidUser;
      var syms := cfg.At(c).syms;
      for k := 0 to |syms|
        invariant Valid() && Grew(old(cache), cache) && Invisible(cache, syms[..k])
      {
        ghost var c1 := cache;
        MemberLevel(cfg, c, syms[k]);
        var vis := VisibilityOf(syms[k]);
        forall s | s in syms[..k] ensures CacheAt(cache, s).vis == Some(0) {
          assert CacheAt(c1, s).vis == Some(0);
          assert Extends(c1[s], cache[s]);
        }
        if vis > 0 {
          InvisibleSkip(cache, syms, k);
          return Some(syms[k]);
        }
        assert syms[..k + 1] == syms[..k] + [syms[k]];
      }
      assert syms[..|syms|] == syms;
      InvisibleSkip(cache, syms, |syms|);
      return None;
    }

    method SelectionFromDefaultsOf(c: nat) returns (r: Option<nat>)
      requires Valid() && c < |cache| && cfg.At(c).Choice?
      modifies this`cache
      ensures Valid() && Grew(old(cache), cache) && KnownSelFromDefaults(cfg, user, cache, c) == Some(r)
      ensures r == SelectionFromDefaults(cfg, Values(cfg, user), c)
      decreases cfg.Rank(c), 4, 2
    {
      hide Supported, Values, TypedUser, Dependents;
      r := FirstChoiceDefaultOf(c);
      if r.None? {
        ghost var mid := cache;
        r := FirstVisibleOf(c);
        var ks := DependsOn(cfg, c);
        DependsOnCovers(cfg, c, ks);
        GrewKeeps(cfg, user, mid, cache, ks);
        ChoiceDefaultKept(cfg, user, mid, user, cache, cfg.At(c).choiceDefaults, ks);
      }
      SupportedCoherent(cfg, user, cache, c);
    }

    method SelectionOf(c: nat) returns (r: Option<nat>)
      requires Valid() && c < |cache| && cfg.At(c).Choice?
      modifies this`cache
      ensures Valid() && Grew(old(cache), cache) && cache[c].sel == Some(r)
      ensures r == Values(cfg, user)[c].sel
      decreases cfg.Rank(c), 4, 3
    {
      hide Supported, Values, TypedUser, Dependents, KnownMode, KnownSelFromDefaults;
      if cache[c].sel.Some? {
        SupportedCoherent(cfg, user, cache, c);
        return cache[c].sel.value;
      }
      var mode := ChoiceMode(c);
      ghost var c1 := cache;
      var fromUser := false;
      if mode != 2 {
        r := None;
      } else {
        if user[c].sel.Some? {
          MemberLevel(cfg, c, user[c].sel.value);
          var vis := VisibilityOf(user[c].sel.value);
          ModeGrew(cfg, user, c1, cache, c);
          fromUser := vis > 0;
        }
        if fromUser {
          r := user[c].sel;
        } else {
          ghost var c2 := cache;
          r := SelectionFromDefaultsOf(c);
          ModeGrew(cfg, user, c2, cache, c);
          if user[c].sel.Some? { assert Extends(c2[user[c].sel.value], cache[user[c].sel.value]); }
        }
      }
      StoreSel(c, r);
    }

    method StoreSel(c: nat, r: Option<nat>)
      requires Valid() && c < |cache| && cfg.At(c).Choice? && KnownSel(cfg, user, cache, c) == Some(r)
      modifies this`cache
      ensures Valid() && Grew(old(cache), cache) && cache[c].sel == Some(r) && r == ValAt(Values(cfg, user), c).sel
    {
      if cache[c].sel.None? {
        ghost var cb := CacheSel(cfg, user, cache, c, r);
        cache := cache[c := cache[c].(sel := Some(r))];
      } else {
        assert SupportedAt(cfg, user, cache, c);
      }
      SupportedCoherent(cfg, user, cache, c);
    }

    method ActiveDefaultOf(i: nat, ghost stage: nat) returns (r: Option<Default>)
      requires Valid() && i < |cache| && cfg.At(i).Symbol? && stage >= 3
      modifies this`cache
      ensures Valid() && Grew(old(cache), cache)
      ensures KnownDefault(cfg, user, cache, cfg.At(i).defaults) == Some(r) && (r.Some? ==> r.value in cfg.At(i).defaults)
      decreases cfg.Rank(i), stage, 1
    {
      hide Supported, Values, TypedUser, Dependents, KnownExpr;
      var ds := cfg.At(i).defaults;
      assert ItemWellFormed(cfg, i);
      for k := 0 to |ds|
        invariant Valid() && Grew(old(cache), cache) && OffDefaults(cfg, user, cache, ds[..k])
      {
        ghost var mid := cache;
        var v := EvalExpr(ds[k].cond, i, stage);
        OffDefaultsGrew(cfg, user, mid, cache, ds[..k]);
        if v > 0 {
          OffDefaultsSkip(cfg, user, cache, ds, k);
          return Some(ds[k]);
        }
        assert ds[..k + 1] == ds[..k] + [ds[k]];
      }
      assert ds[..|ds|] == ds;
      OffDefaultsSkip(cfg, user, cache, ds, |ds|);
      return None;
    }

    method DefaultTriOf(i: nat) returns (r: Tri)
      requires Valid() && i < |cache| && cfg.At(i).Symbol?
      modifies this`cache
      ensures Valid() && Grew(old(cache), cache) && KnownDefaultTri(cfg, user, cache, cfg.At(i).defaults) == Some(r)
      decreases cfg.Rank(i), 5, 2
    {
      hide Supported, Values, TypedUser, Dependents;
      assert ItemWellFormed(cfg, i);
      var d := ActiveDefaultOf(i, 5);
      r := 0;
      if d.Some? {
        ghost var c1 := cache;
        var a := EvalExpr(d.value.value, i, 5);
        ghost var c2 := cache;
        var b := EvalExpr(d.value.cond, i, 5);
        ExprGrew(cfg, user, c2, cache, d.value.value);
        DefaultGrew(cfg, user, c1, c2, i);
        DefaultGrew(cfg, user, c2, cache, i);
        r := Min(a, b);
      }
    }

    method ImpliedOf(i: nat) returns (r: Tri)
      requires Valid() && i < |cache| && cfg.At(i).Symbol?
      modifies this`cache
      ensures Valid() && Grew(old(cache), cache) && KnownImplied(cfg, user, cache, cfg.At(i)) == Some(r)
      decreases cfg.Rank(i), 5, 2
    {
      hide Supported, Values, TypedUser, Dependents;
      assert ItemWellFormed(cfg, i);
      r := EvalExpr(cfg.At(i).weakRevDep, i, 5);
      if r > 0 {
        ghost var mid := cache;
        var d := EvalExpr(cfg.At(i).directDep, i, 5);
        ExprGrew(cfg, user, mid, cache, cfg.At(i).weakRevDep);
        if d == 0 { r := 0; }
      }
    }

    method PromotesOf(i: nat) returns (r: bool)
      requires Valid() && i < |cache| && cfg.At(i).Symbol? && IsBoolTri(cfg.At(i).typ)
      modifies this`cache
      ensures Valid() && Grew(old(cache), cache) && KnownPromotes(cfg, user, cache, cfg.At(i)) == Some(r)
      decreases cfg.Rank(i), 5, 2
    {
      hide Supported, Values, TypedUser, Dependents;
      assert ItemWellFormed(cfg, i);
      if cfg.At(i).typ == Bool { return true; }
      var m := ModulesValue(i);
      if m == 0 { return true; }
      ghost var mid := cache;
      var w := EvalExpr(cfg.At(i).weakRevDep, i, 5);
      StrGrew(cfg, mid, cache, cfg.modules);
      return w == 2;
    }

    method WantedOf(i: nat) returns (r: (Tri, bool))
      requires Valid() && i < |cache| && cfg.At(i).Symbol?
      modifies this`cache
      ensures Valid() && Grew(old(cache), cache) && KnownWanted(cfg, user, cache, i) == Some(r)
      decreases cfg.Rank(i), 5, 3
    {
      hide Supported, Values, TypedUser, Dependents;
      var vis := VisibilityOf(i);
      if vis > 0 && user[i].tri.Some? {
        return (Min(user[i].tri.value, vis), true);
      }
      ghost var c1 := cache;
      var d := DefaultTriOf(i);
      ghost var c2 := cache;
      var w := ImpliedOf(i);
      DefaultGrew(cfg, user, c2, cache, i);
      assert Extends(c1[i], c2[i]) && Extends(c2[i], cache[i]);
      return (Max(d, w), vis > 0 || d > 0 || w > 0);
    }

    method PlainTriOf(i: nat) returns (r: (Tri, bool))
      requires Valid() && i < |cache| && cfg.At(i).Symbol? && IsBoolTri(cfg.At(i).typ)
      modifies this`cache
      ensures Valid() && Grew(old(cache), cache) && KnownPlainTri(cfg, user, cache, i) == Some(r)
      decreases cfg.Rank(i), 5, 4
    {
      hide Supported, Values, TypedUser, Dependents;
      assert ItemWellFormed(cfg, i);
      var wanted := WantedOf(i);
      ghost var c1 := cache;
      var rev := EvalExpr(cfg.At(i).revDep, i, 5);
      WantedGrew(cfg, user, c1, cache, i);
      var val := Max(wanted.0, rev);
      if val == 1 {
        ghost var c2 := cache;
        var up := PromotesOf(i);
        WantedGrew(cfg, user, c2, cache, i);
        ExprGrew(cfg, user, c2, cache, cfg.At(i).revDep);
        if up { val := 2; }
      }
      return (val, wanted.1 || rev > 0);
    }

    method ChoiceSymTriOf(i: nat, c: nat) returns (r: (Tri, bool))
      requires Valid() && i < |cache| && OwnChoice(cfg, i, c)
      modifies this`cache
      ensures Valid() && Grew(old(cache), cache) && KnownChoiceSymTri(user, cache, i, c) == Some(r)
      decreases cfg.Rank(i), 5, 4
    {
      hide Supported, Values, TypedUser, Dependents;
      assert ItemWellFormed(cfg, i);
      var vis := VisibilityOf(i);
      if vis == 2 {
        ghost var mid := cache;
        var sel := SelectionOf(c);
        assert Extends(mid[i], cache[i]);
        return (if sel == Some(i) then 2 else 0, true);
      }
      if vis > 0 && user[i].tri.Some? && user[i].tri.value > 0 { return (1, true); }
      return (0, vis > 0);
    }

    method TriValueOf(i: nat) returns (v: Tri)
      requires Valid() && i < |cache| && !cfg.At(i).Choice?
      modifies this`cache
      ensures Valid() && Grew(old(cache), cache) && KnownSymTri(cfg, cache, i) == Some(v)
      ensures v == Values(cfg, user)[i].tri
      decreases cfg.Rank(i), 5, 5
    {
      hide Supported, Values, TypedUser, Dependents;
      var it := cfg.At(i);
      if it.Const? {
        SupportedCoherent(cfg, user, cache, i);
        return it.val;
      }
      if !IsBoolTri(it.typ) {
        SupportedCoherent(cfg, user, cache, i);
        return 0;
      }
      if cache[i].tri.Some? {
        SupportedCoherent(cfg, user, cache, i);
        return cache[i].tri.value;
      }
      var r;
      if it.choice.Some? { r := ChoiceSymTriOf(i, it.choice.value); } else { r := PlainTriOf(i); }
      StoreTri(i, r);
      v := r.0;
    }

    method StoreTri(i: nat, r: (Tri, bool))
      requires Valid() && i < |cache| && cfg.At(i).Symbol? && IsBoolTri(cfg.At(i).typ)
      requires KnownTriResult(cfg, user, cache, i) == Some(r)
      modifies this`cache
      ensures Valid() && Grew(old(cache), cache) && cache[i].tri == Some(r.0) && r.0 == ValAt(Values(cfg, user), i).tri
    {
      if cache[i].tri.None? {
        ghost var cb := CacheTri(cfg, user, cache, i, r);
        cache := cache[i := cache[i].(tri := Some(r.0), writes := r.1)];
      } else {
        assert SupportedAt(cfg, user, cache, i);
      }
      SupportedCoherent(cfg, user, cache, i);
    }

    method ActiveRangeOf(i: nat) returns (r: Option<Range>)
      requires Valid() && i < |cache| && cfg.At(i).Symbol?
      modifies this`cache
      ensures Valid() && Grew(old(cache), cache)
      ensures KnownRange(cfg, user, cache, cfg.At(i).ranges) == Some(r) && (r.Some? ==> r.value in cfg.At(i).ranges)
      decreases cfg.Rank(i), 6, 1
    {
      hide Supported, Values, TypedUser, Dependents, KnownExpr;
      var rs := cfg.At(i).ranges;
      assert ItemWellFormed(cfg, i);
      for k := 0 to |rs|
        invariant Valid() && Grew(old(cache), cache) && OffRanges(cfg, user, cache, rs[..k])
      {
        ghost var mid := cache;
        var v := EvalExpr(rs[k].cond, i, 6);
        OffRangesGrew(cfg, user, mid, cache, rs[..k]);
        if v > 0 {
          OffRangesSkip(cfg, user, cache, rs, k);
          return Some(rs[k]);
        }
        assert rs[..k + 1] == rs[..k] + [rs[k]];
      }
      assert rs[..|rs|] == rs;
      OffRangesSkip(cfg, user, cache, rs, |rs|);
      return None;
    }

    method BoundsOf(i: nat) returns (b: Option<(int, int)>)
      requires Valid() && i < |cache| && cfg.At(i).Symbol?
      modifies this`cache
      ensures Valid() && Grew(old(cache), cache) && KnownBounds(cfg, user, cache, cfg.At(i)) == Some(b)
      decreases cfg.Rank(i), 6, 2
    {
      hide Supported, Values, TypedUser, Dependents;
      assert ItemWellFormed(cfg, i);
      var r := ActiveRangeOf(i);
      if r.None? { return None; }
      ghost var c1 := cache;
      var lo := StrValueOf(r.value.low);
      ghost var c2 := cache;
      var hi := StrValueOf(r.value.high);
      BoundsGrew(cfg, user, c1, c2, i);
      BoundsGrew(cfg, user, c2, cache, i);
      StrGrew(cfg, c2, cache, r.value.low);
      var base := Base(cfg.At(i).typ);
      return Some((NumOrZero(lo, base), NumOrZero(hi, base)));
    }

    method DefaultStrOf(i: nat) returns (r: (string, bool))
      requires Valid() && i < |cache| && cfg.At(i).Symbol? && !IsBoolTri(cfg.At(i).typ)
      modifies this`cache
      ensures Valid() && Grew(old(cache), cache) && KnownDefaultStr(cfg, user, cache, cfg.At(i).defaults) == Some(r)
      decreases cfg.Rank(i), 6, 2
    {
      hide Supported, Values, TypedUser, Dependents;
      assert ItemWellFormed(cfg, i);
      var d := ActiveDefaultOf(i, 6);
      if d.None? { return ("", false); }
      ghost var mid := cache;
      assert OperandBelow(cfg, d.value.value.item, i);
      var s := StrValueOf(d.value.value.item);
      DefaultGrew(cfg, user, mid, cache, i);
      return (s, true);
    }

    method IntHexOf(i: nat, vis: Tri) returns (r: (string, bool))
      requires Valid() && i < |cache| && cfg.At(i).Symbol? && IsIntHex(cfg.At(i).typ)
      modifies this`cache
      ensures Valid() && Grew(old(cache), cache) && KnownIntHex(cfg, user, cache, i, vis) == Some(r)
      decreases cfg.Rank(i), 6, 3
    {
      hide Supported, Values, TypedUser, Dependents;
      var typ := cfg.At(i).typ;
      var bounds := BoundsOf(i);
      var u := user[i].str;
      if vis > 0 && u.Some? && u.value != "" && InBounds(bounds, NumOrZero(u.value, Base(typ))) {
        return (u.value, true);
      }
      ghost var mid := cache;
      var d := DefaultStrOf(i);
      BoundsGrew(cfg, user, mid, cache, i);
      return (Clamp(typ, bounds, d.0), vis > 0 || d.1);
    }

    method StrValueOf(i: nat) returns (s: string)
      requires Valid() && i < |cache| && !cfg.At(i).Choice?
      modifies this`cache
      ensures Valid() && Grew(old(cache), cache) && KnownStr(cfg, cache, i) == Some(s)
      ensures s == Values(cfg, user)[i].str
      decreases cfg.Rank(i), 6, 4
    {
      hide Supported, Values, TypedUser, Dependents, KnownIntHex, KnownDefaultStr;
      var it := cfg.At(i);
      if it.Const? {
        SupportedCoherent(cfg, user, cache, i);
        return if IsBoolTri(it.typ) then TriToStr(it.val) else it.name;
      }
      if it.typ == Unknown {
        SupportedCoherent(cfg, user, cache, i);
        return it.name;
      }
      if cache[i].str.Some? {
        SupportedCoherent(cfg, user, cache, i);
        return cache[i].str.value;
      }
      var r: (string, bool);
      if IsBoolTri(it.typ) {
        var t := TriValueOf(i);
        r := (TriToStr(t), cache[i].writes);
      } else {
        var vis := VisibilityOf(i);
        ghost var mid := cache;
        if IsIntHex(it.typ) {
          r := IntHexOf(i, vis);
        } else if vis > 0 && user[i].str.Some? {
          r := (user[i].str.value, true);
        } else {
          r := DefaultStrOf(i);
          r := (r.0, vis > 0 || r.1);
        }
        assert Extends(mid[i], cache[i]);
        r := (r.0, r.1 && !it.hidden);
      }
      StoreStr(i, r);
      s := r.0;
    }

    method StoreStr(i: nat, r: (string, bool))
      requires Valid() && i < |cache| && cfg.At(i).Symbol? && KnownStrResult(cfg, user, cache, i) == Some(r)
      modifies this`cache
      ensures Valid() && Grew(old(cache), cache) && cache[i].str == Some(r.0) && r.0 == ValAt(Values(cfg, user), i).str
    {
      if cache[i].str.None? {
        ghost var cb := CacheStr(cfg, user, cache, i, r);
        cache := cache[i := cache[i].(str := Some(r.0), writes := r.1)];
      } else {
        assert SupportedAt(cfg, user, cache, i);
      }
      SupportedCoherent(cfg, user, cache, i);
    }

    method SymAssignable(i: nat, vis: Tri) returns (r: seq<Tri>)
      requires Valid() && i < |cache| && cfg.At(i).Symbol? && IsBoolTri(cfg.At(i).typ)
      requires cache[i].vis == Some(vis) && vis > 0
      modifies this`cache
      ensures Valid() && Grew(old(cache), cache) && KnownAsg(cfg, user, cache, i) == Some(r)
      decreases cfg.Rank(i), 6, 3
    {
      hide Supported, Values, TypedUser, Dependents;
      assert ItemWellFormed(cfg, i);
      var it := cfg.At(i);
      var rev := EvalExpr(it.revDep, i, 6);
      ghost var mid := cache;
      assert Extends(old(cache)[i], mid[i]);
      if vis == 2 {
        if it.choice.Some? || rev == 2 { return [2]; }
        var up := PromotesOf(i);
        ExprGrew(cfg, user, mid, cache, it.revDep);
        assert Extends(mid[i], cache[i]);
        return if rev == 0 then (if up then [0, 2] else [0, 1, 2]) else (if up then [2] else [1, 2]);
      }
      if rev == 0 {
        var w := EvalExpr(it.weakRevDep, i, 6);
        ExprGrew(cfg, user, mid, cache, it.revDep);
        assert Extends(mid[i], cache[i]);
        return if w != 2 then [0, 1] else [0, 2];
      }
      return if rev == 2 then [2] else [1];
    }

    method ChoiceAssignable(c: nat, vis: Tri) returns (r: seq<Tri>)
      requires Valid() && c < |cache| && cfg.At(c).Choice? && cache[c].vis == Some(vis) && vis > 0
      modifies this`cache
      ensures Valid() && Grew(old(cache), cache) && KnownAsg(cfg, user, cache, c) == Some(r)
      decreases cfg.Rank(c), 6, 3
    {
      hide Supported, Values, TypedUser, Dependents;
      assert ItemWellFormed(cfg, c);
      var it := cfg.At(c);
      if vis == 1 { return if it.optional then [0, 1] else [1]; }
      var asBool := it.typ == Bool;
      if it.typ == Tristate {
        var m := ModulesValue(c);
        assert Extends(old(cache)[c], cache[c]);
        asBool := m == 0;
      }
      return if it.optional then (if asBool then [0, 2] else [0, 1, 2]) else (if asBool then [2] else [1, 2]);
    }

    method AssignableOf(i: nat) returns (r: seq<Tri>)
      requires Valid() && i < |cache| && !cfg.At(i).Const?
      modifies this`cache
      ensures Valid() && Grew(old(cache), cache) && cache[i].asg == Some(r)
      ensures r == Assignable(cfg, Values(cfg, user), i)
      decreases cfg.Rank(i), 6, 4
    {
      hide Supported, Values, TypedUser, Dependents;
      if cache[i].asg.Some? {
        SupportedCoherent(cfg, user, cache, i);
        return cache[i].asg.value;
      }
      var it := cfg.At(i);
      r := [];
      if it.Choice? || IsBoolTri(it.typ) {
        var vis := VisibilityOf(i);
        if vis > 0 {
          if it.Choice? { r := ChoiceAssignable(i, vis); } else { r := SymAssignable(i, vis); }
        }
      }
      StoreAsg(i, r);
    }

    method StoreAsg(i: nat, r: seq<Tri>)
      requires Valid() && i < |cache| && KnownAsg(cfg, user, cache, i) == Some(r)
      modifies this`cache
      ensures Valid() && Grew(old(cache), cache) && cache[i].asg == Some(r)
      ensures r == Assignable(cfg, Values(cfg, user), i)
    {
      if cache[i].asg.None? {
        ghost var cb := CacheAsg(cfg, user, cache, i, r);
        cache := cache[i := cache[i].(asg := Some(r))];
      } else {
        assert SupportedAt(cfg, user, cache, i);
      }
      SupportedCoherent(cfg, user, cache, i);
    }
  }
}
