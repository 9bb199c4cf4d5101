/**
  What a cached value rests on. Each cached field of an item was computed by reading cached fields of
  other items; `Supported` says that redoing the computation from the caches alone still gives the
  cached result. Reads stop early exactly where the engine stops (short-circuit && and ||), so an item
  that was never read need not be cached.
  */
module KconfigCache {
  import opened Basics
  import opened Numbers
  import opened KconfigModel

  datatype Cache = Cache(vis: Option<Tri>, tri: Option<Tri>, str: Option<string>, asg: Option<seq<Tri>>,
                         sel: Option<Option<nat>>, writes: bool)
  type Caches = seq<Cache>
  const EMPTY := Cache(None, None, None, None, None, false)

  function CacheAt(ca: Caches, i: nat): Cache { if i < |ca| then ca[i] else EMPTY }

  // ---------------------------------------------------------------------------------------------
  // Reading from the caches alone; None means that a value is missing

  function KnownMode(cfg: Config, u: User, ca: Caches, c: nat): Option<Tri>
    requires cfg.At(c).Choice?
  {
    var vis :- CacheAt(ca, c).vis;
    var low: Tri := if cfg.At(c).optional then 0 else 1;
    var wanted := if UserAt(u, c).tri.Some? then Max(low, UserAt(u, c).tri.value) else low;
    var val := Min(wanted, vis);
    if val == 1 && cfg.At(c).typ == Bool then Some(2)
    else if val == 1 && cfg.At(c).typ == Tristate then
      var m :- KnownModules(cfg, ca);
      Some(if m == 0 then 2 else 1)
    else Some(val)
  }

  function KnownSymTri(cfg: Config, ca: Caches, i: nat): Option<Tri> {
    match cfg.At(i)
    case Const(_, _, val) => Some(val)
    case Symbol(_, typ, _, _, _, _, _, _, _, _) => if IsBoolTri(typ) then CacheAt(ca, i).tri else Some(0)
    case Choice(_, _, _, _, _) => None
  }

  function KnownModules(cfg: Config, ca: Caches): Option<Tri> { KnownSymTri(cfg, ca, cfg.modules) }

  function KnownTri(cfg: Config, u: User, ca: Caches, i: nat): Option<Tri> {
    if cfg.At(i).Choice? then KnownMode(cfg, u, ca, i) else KnownSymTri(cfg, ca, i)
  }

  function KnownStr(cfg: Config, ca: Caches, i: nat): Option<string> {
    match cfg.At(i)
    case Const(name, typ, val) => Some(if IsBoolTri(typ) then TriToStr(val) else name)
    case Symbol(name, typ, _, _, _, _, _, _, _, _) => if typ == Unknown then Some(name) else CacheAt(ca, i).str
    case Choice(_, _, _, _, _) => None
  }

  function KnownNum(cfg: Config, ca: Caches, i: nat): Option<Option<int>> {
    var t := cfg.At(i).typ;
    if IsBoolTri(t) then
      var v :- KnownSymTri(cfg, ca, i);
      Some(Some(v))
    else
      var s :- KnownStr(cfg, ca, i);
      Some(ParseInt(s, Base(t)))
  }

  function KnownStrCmp(cfg: Config, ca: Caches, a: nat, b: nat): Option<int> {
    var s :- KnownStr(cfg, ca, a);
    var t :- KnownStr(cfg, ca, b);
    Some(StrCmp(s, t))
  }

  function KnownCompare(cfg: Config, ca: Caches, a: nat, b: nat): Option<int> {
    if ComparedAsText(cfg.At(a).typ, cfg.At(b).typ) then KnownStrCmp(cfg, ca, a, b)
    else
      var x :- KnownNum(cfg, ca, a);
      if x.None? then KnownStrCmp(cfg, ca, a, b)
      else
        var y :- KnownNum(cfg, ca, b);
        if y.None? then KnownStrCmp(cfg, ca, a, b) else Some(x.value - y.value)
  }

  function KnownExpr(cfg: Config, u: User, ca: Caches, e: Expr): Option<Tri> {
    match e
    case Ref(i) => KnownTri(cfg, u, ca, i)
    case And(a, b) =>
      var x :- KnownExpr(cfg, u, ca, a);
      if x == 0 then Some(0) else var y :- KnownExpr(cfg, u, ca, b); Some(Min(x, y))
    case Or(a, b) =>
      var x :- KnownExpr(cfg, u, ca, a);
      if x == 2 then Some(2) else var y :- KnownExpr(cfg, u, ca, b); Some(Max(x, y))
    case Not(a) =>
      var x: Tri :- KnownExpr(cfg, u, ca, a);
      Some(2 - x)
    case Rel(op, a, b) =>
      var c :- KnownCompare(cfg, ca, a, b);
      Some(RelValue(op, c))
  }

  function KnownMax(cfg: Config, u: User, ca: Caches, es: seq<Expr>): Option<Tri> {
    if es == [] then Some(0)
    else
      var x :- KnownMax(cfg, u, ca, es[..|es| - 1]);
      var y :- KnownExpr(cfg, u, ca, es[|es| - 1]);
      Some(Max(x, y))
  }

  function KnownVis(cfg: Config, u: User, ca: Caches, i: nat): Option<Tri> {
    var it := cfg.At(i);
    if it.Const? then Some(0)
    else
      var v :- KnownMax(cfg, u, ca, it.prompts);
      if v == 0 then Some(0)
      else if it.Symbol? && it.choice.Some? && cfg.At(it.choice.value).typ == Tristate && it.typ != Tristate then
        var mode :- KnownTri(cfg, u, ca, it.choice.value);
        Some(if mode != 2 then 0 else 2)
      else if v == 1 && it.typ == Tristate then
        if it.Symbol? && it.choice.Some? then
          var mode :- KnownTri(cfg, u, ca, it.choice.value);
          if mode == 2 then Some(0)
          else var m :- KnownModules(cfg, ca); Some(if m == 0 then 2 else 1)
        else var m :- KnownModules(cfg, ca); Some(if m == 0 then 2 else 1)
      else Some(if v == 1 then 2 else v)
  }

  function KnownDefault(cfg: Config, u: User, ca: Caches, ds: seq<Default>): Option<Option<Default>> {
    if ds == [] then Some(None)
    else
      var v :- KnownExpr(cfg, u, ca, ds[0].cond);
      if v > 0 then Some(Some(ds[0])) else KnownDefault(cfg, u, ca, ds[1..])
  }

  function KnownDefaultTri(cfg: Config, u: User, ca: Caches, ds: seq<Default>): Option<Tri> {
    var d :- KnownDefault(cfg, u, ca, ds);
    if d.None? then Some(0)
    else
      var a :- KnownExpr(cfg, u, ca, d.value.value);
      var b :- KnownExpr(cfg, u, ca, d.value.cond);
      Some(Min(a, b))
  }

  function KnownImplied(cfg: Config, u: User, ca: Caches, it: Item): Option<Tri>
    requires it.Symbol?
  {
    var w :- KnownExpr(cfg, u, ca, it.weakRevDep);
    if w == 0 then Some(0)
    else var d :- KnownExpr(cfg, u, ca, it.directDep); Some(if d > 0 then w else 0)
  }

  function KnownPromotes(cfg: Config, u: User, ca: Caches, it: Item): Option<bool>
    requires it.Symbol?
  {
    if it.typ == Bool then Some(true)
    else
      var m :- KnownModules(cfg, ca);
      if m == 0 then Some(true)
      else var w :- KnownExpr(cfg, u, ca, it.weakRevDep); Some(w == 2)
  }

  /** The wanted value before selects, and whether it alone puts the symbol in the .config file. */
  function KnownWanted(cfg: Config, u: User, ca: Caches, i: nat): Option<(Tri, bool)>
    requires cfg.At(i).Symbol?
  {
    var vis :- CacheAt(ca, i).vis;
    if vis > 0 && UserAt(u, i).tri.Some? then Some((Min(UserAt(u, i).tri.value, vis), true))
    else
      var d :- KnownDefaultTri(cfg, u, ca, cfg.At(i).defaults);
      var w :- KnownImplied(cfg, u, ca, cfg.At(i));
      Some((Max(d, w), vis > 0 || d > 0 || w > 0))
  }

  function KnownPlainTri(cfg: Config, u: User, ca: Caches, i: nat): Option<(Tri, bool)>
    requires cfg.At(i).Symbol?
  {
    var wanted :- KnownWanted(cfg, u, ca, i);
    var rev :- KnownExpr(cfg, u, ca, cfg.At(i).revDep);
    var val := Max(wanted.0, rev);
    if val == 1 then
      var up :- KnownPromotes(cfg, u, ca, cfg.At(i));
      Some((if up then 2 else 1, wanted.1 || rev > 0))
    else Some((val, wanted.1 || rev > 0))
  }

  function KnownChoiceSymTri(u: User, ca: Caches, i: nat, c: nat): Option<(Tri, bool)> {
    var vis :- CacheAt(ca, i).vis;
    if vis == 2 then
      var sel :- CacheAt(ca, c).sel;
      Some((if sel == Some(i) then 2 else 0, true))
    else if vis == 1 && UserAt(u, i).tri.Some? && UserAt(u, i).tri.value > 0 then Some((1, true))
    else Some((0, vis > 0))
  }

  /** A bool or tristate symbol's value and whether it is written to the .config file. */
  function KnownTriResult(cfg: Config, u: User, ca: Caches, i: nat): Option<(Tri, bool)>
    requires cfg.At(i).Symbol?
  {
    var it := cfg.At(i);
    if !IsBoolTri(it.typ) then Some((0, false))
    else if it.choice.Some? then KnownChoiceSymTri(u, ca, i, it.choice.value)
    else KnownPlainTri(cfg, u, ca, i)
  }

  function KnownRange(cfg: Config, u: User, ca: Caches, rs: seq<Range>): Option<Option<Range>> {
    if rs == [] then Some(None)
    else
      var v :- KnownExpr(cfg, u, ca, rs[0].cond);
      if v > 0 then Some(Some(rs[0])) else KnownRange(cfg, u, ca, rs[1..])
  }

  function KnownBounds(cfg: Config, u: User, ca: Caches, it: Item): Option<Option<(int, int)>>
    requires it.Symbol?
  {
    var r :- KnownRange(cfg, u, ca, it.ranges);
    if r.None? then Some(None)
    else
      var lo :- KnownStr(cfg, ca, r.value.low);
      var hi :- KnownStr(cfg, ca, r.value.high);
      Some(Some((NumOrZero(lo, Base(it.typ)), NumOrZero(hi, Base(it.typ)))))
  }

  /** The text of the active default, and whether there is one. */
  function KnownDefaultStr(cfg: Config, u: User, ca: Caches, ds: seq<Default>): Option<(string, bool)> {
    var d :- KnownDefault(cfg, u, ca, ds);
    if d.None? then Some(("", false))
    else if d.value.value.Ref? then var s :- KnownStr(cfg, ca, d.value.value.item); Some((s, true))
    else Some(("", true))
  }

  function KnownIntHex(cfg: Config, u: User, ca: Caches, i: nat, vis: Tri): Option<(string, bool)>
    requires cfg.At(i).Symbol? && IsIntHex(cfg.At(i).typ)
  {
    var it := cfg.At(i);
    var bounds :- KnownBounds(cfg, u, ca, it);
    var user := UserAt(u, i).str;
    if vis > 0 && user.Some? && user.value != "" && InBounds(bounds, NumOrZero(user.value, Base(it.typ)))
    then Some((user.value, true))
    else
      var d :- KnownDefaultStr(cfg, u, ca, it.defaults);
      Some((Clamp(it.typ, bounds, d.0), vis > 0 || d.1))
  }

  function KnownStrResult(cfg: Config, u: User, ca: Caches, i: nat): Option<(string, bool)>
    requires cfg.At(i).Symbol?
  {
    var it := cfg.At(i);
    if IsBoolTri(it.typ) then var t :- CacheAt(ca, i).tri; Some((TriToStr(t), CacheAt(ca, i).writes))
    else if it.typ == Unknown then Some((it.name, false))
    else
      var vis :- CacheAt(ca, i).vis;
      var r :-
        if IsIntHex(it.typ) then KnownIntHex(cfg, u, ca, i, vis)
        else if vis > 0 && UserAt(u, i).str.Some? then Some((UserAt(u, i).str.value, true))
        else (var d :- KnownDefaultStr(cfg, u, ca, it.defaults); Some((d.0, vis > 0 || d.1)));
      Some((r.0, r.1 && !it.hidden))
  }

  function KnownChoiceDefault(cfg: Config, u: User, ca: Caches, ds: seq<ChoiceDefault>): Option<Option<nat>> {
    if ds == [] then Some(None)
    else
      var v :- KnownExpr(cfg, u, ca, ds[0].cond);
      if v == 0 then KnownChoiceDefault(cfg, u, ca, ds[1..])
      else
        var vis :- CacheAt(ca, ds[0].sym).vis;
        if vis > 0 then Some(Some(ds[0].sym)) else KnownChoiceDefault(cfg, u, ca, ds[1..])
  }

  function KnownFirstVisible(ca: Caches, syms: seq<nat>): Option<Option<nat>> {
    if syms == [] then Some(None)
    else
      var vis :- CacheAt(ca, syms[0]).vis;
      if vis > 0 then Some(Some(syms[0])) else KnownFirstVisible(ca, syms[1..])
  }

  function KnownSelFromDefaults(cfg: Config, u: User, ca: Caches, c: nat): Option<Option<nat>>
    requires cfg.At(c).Choice?
  {
    var d :- KnownChoiceDefault(cfg, u, ca, cfg.At(c).choiceDefaults);
    if d.Some? then Some(d) else KnownFirstVisible(ca, cfg.At(c).syms)
  }

  function KnownSel(cfg: Config, u: User, ca: Caches, c: nat): Option<Option<nat>>
    requires cfg.At(c).Choice?
  {
    var mode :- KnownMode(cfg, u, ca, c);
    if mode != 2 then Some(None)
    else if UserAt(u, c).sel.Some? then
      var vis :- CacheAt(ca, UserAt(u, c).sel.value).vis;
      if vis > 0 then Some(UserAt(u, c).sel) else KnownSelFromDefaults(cfg, u, ca, c)
    else KnownSelFromDefaults(cfg, u, ca, c)
  }

  function KnownAsg(cfg: Config, u: User, ca: Caches, i: nat): Option<seq<Tri>> {
    var it := cfg.At(i);
    if it.Const? || (it.Symbol? && !IsBoolTri(it.typ)) then Some([])
    else
      var vis :- CacheAt(ca, i).vis;
      if vis == 0 then Some([])
      else if it.Choice? then
        if vis == 2 then
          var asBool :- if it.typ == Bool then Some(true)
                        else if it.typ == Tristate then (var m :- KnownModules(cfg, ca); Some(m == 0))
                        else Some(false);
          Some(if it.optional then (if asBool then [0, 2] else [0, 1, 2]) else (if asBool then [2] else [1, 2]))
        else Some(if it.optional then [0, 1] else [1])
      else
        var rev :- KnownExpr(cfg, u, ca, it.revDep);
        if vis == 2 then
          if it.choice.Some? then Some([2])
          else if rev == 2 then Some([2])
          else
            var up :- KnownPromotes(cfg, u, ca, it);
            Some(if rev == 0 then (if up then [0, 2] else [0, 1, 2]) else (if up then [2] else [1, 2]))
        else if rev == 0 then
          var w :- KnownExpr(cfg, u, ca, it.weakRevDep);
          Some(if w != 2 then [0, 1] else [0, 2])
        else Some(if rev == 2 then [2] else [1])
  }

  // ---------------------------------------------------------------------------------------------
  // The cache invariant

  ghost predicate VisSupported(cfg: Config, u: User, ca: Caches, i: nat) {
    CacheAt(ca, i).vis.Some? ==> KnownVis(cfg, u, ca, i) == CacheAt(ca, i).vis
  }

  ghost predicate TriSupported(cfg: Config, u: User, ca: Caches, i: nat) {
    CacheAt(ca, i).tri.Some? && cfg.At(i).Symbol? ==>
      var r := KnownTriResult(cfg, u, ca, i);
      r.Some? && r.value.0 == CacheAt(ca, i).tri.value
      && (IsBoolTri(cfg.At(i).typ) ==> r.value.1 == CacheAt(ca, i).writes)
  }

  ghost predicate StrSupported(cfg: Config, u: User, ca: Caches, i: nat) {
    CacheAt(ca, i).str.Some? && cfg.At(i).Symbol? ==>
      KnownStrResult(cfg, u, ca, i) == Some((CacheAt(ca, i).str.value, CacheAt(ca, i).writes))
  }

  ghost predicate AsgSupported(cfg: Config, u: User, ca: Caches, i: nat) {
    CacheAt(ca, i).asg.Some? ==> KnownAsg(cfg, u, ca, i) == CacheAt(ca, i).asg
  }

  ghost predicate SelSupported(cfg: Config, u: User, ca: Caches, i: nat) {
    CacheAt(ca, i).sel.Some? && cfg.At(i).Choice? ==> KnownSel(cfg, u, ca, i) == CacheAt(ca, i).sel
  }

  /** Symbols without a type are never written. */
  ghost predicate SupportedAt(cfg: Config, u: User, ca: Caches, i: nat) {
    && VisSupported(cfg, u, ca, i) && TriSupported(cfg, u, ca, i) && StrSupported(cfg, u, ca, i)
    && AsgSupported(cfg, u, ca, i) && SelSupported(cfg, u, ca, i)
    && (cfg.At(i).Symbol? && cfg.At(i).typ == Unknown ==> !CacheAt(ca, i).writes)
  }

  ghost predicate Supported(cfg: Config, u: User, ca: Caches) {
    forall i: nat :: SupportedAt(cfg, u, ca, i)
  }
}
