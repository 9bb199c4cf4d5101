/**
  Symbols, choices and expressions of a Kconfig configuration, and what their visibilities and
  values are: the solution of one equation per symbol and choice.

  Symbols and choices are numbered items. `Step` states every item's equation over an environment;
  in a configuration whose dependencies are stratified (`WellFormed`, what the dependency-loop check
  establishes) the equations have exactly one solution, `Values`.
  */
module KconfigModel {
  import opened Basics
  import opened Numbers

  datatype SymType = Unknown | Bool | Tristate | String | Int | Hex | Key

  datatype RelOp = Equal | Unequal | Less | LessEqual | Greater | GreaterEqual

  /** `Ref` mentions a symbol or choice; relations compare two symbols. */
  datatype Expr =
    | Ref(item: nat)
    | And(left: Expr, right: Expr)
    | Or(left: Expr, right: Expr)
    | Not(arg: Expr)
    | Rel(op: RelOp, lhs: nat, rhs: nat)

  datatype Default = Default(value: Expr, cond: Expr)
  datatype Range = Range(low: nat, high: nat, cond: Expr)
  datatype ChoiceDefault = ChoiceDefault(sym: nat, cond: Expr)

  /**
    `Const` stands for n, m, y, quoted constants and undefined symbols, which never change value.
    `prompts` holds the conditions of the prompts, in definition order, after dependencies were
    propagated to them. `hidden` marks `option env` and `defconfig_list` symbols.
    */
  datatype Item =
    | Const(name: string, typ: SymType, val: Tri)
    | Symbol(name: string, typ: SymType, prompts: seq<Expr>, defaults: seq<Default>, ranges: seq<Range>,
             revDep: Expr, weakRevDep: Expr, directDep: Expr, choice: Option<nat>, hidden: bool)
    | Choice(typ: SymType, prompts: seq<Expr>, choiceDefaults: seq<ChoiceDefault>, syms: seq<nat>,
             optional: bool)

  /** `rank` witnesses that the dependencies are stratified. */
  datatype Config = Config(items: seq<Item>, modules: nat, rank: seq<nat>) {
    function At(i: nat): Item {
      if i < |items| then items[i] else Const("", Unknown, 0)
    }

    /** The rank of an item; the number after the last item ranks above all items. */
    function Rank(i: nat): nat {
      if i < |rank| then rank[i] else Height(rank) + 1
    }
  }

  /** What the user set: a symbol's tristate or text value; a choice's mode and selected symbol. */
  datatype UserValue = UserValue(tri: Option<Tri>, str: Option<string>, sel: Option<nat>)
  type User = seq<UserValue>
  const UNSET := UserValue(None, None, None)

  function UserAt(u: User, i: nat): UserValue { if i < |u| then u[i] else UNSET }

  /** Visibility, tristate value (the mode of a choice), text value, and a choice's selection. */
  datatype Val = Val(vis: Tri, tri: Tri, str: string, sel: Option<nat>)
  type Env = seq<Val>
  const NOTHING := Val(0, 0, "", None)

  function ValAt(env: Env, i: nat): Val { if i < |env| then env[i] else NOTHING }

  predicate IsBoolTri(t: SymType) { t == Bool || t == Tristate }

  predicate IsIntHex(t: SymType) { t == Int || t == Hex }

  function Base(t: SymType): nat { if t == Int then 10 else if t == Hex then 16 else 0 }

  // ---------------------------------------------------------------------------------------------
  // Expressions

  function Num(cfg: Config, env: Env, i: nat): Option<int> {
    var t := cfg.At(i).typ;
    if IsBoolTri(t) then Some(ValAt(env, i).tri) else ParseInt(ValAt(env, i).str, Base(t))
  }

  predicate ComparedAsText(a: SymType, b: SymType) {
    (a == String && b == String) || (a == Key && b == Key)
  }

  function Compare(cfg: Config, env: Env, a: nat, b: nat): int {
    if ComparedAsText(cfg.At(a).typ, cfg.At(b).typ) || Num(cfg, env, a).None? || Num(cfg, env, b).None? then
      StrCmp(ValAt(env, a).str, ValAt(env, b).str)
    else
      Num(cfg, env, a).value - Num(cfg, env, b).value
  }

  function RelValue(op: RelOp, comp: int): Tri {
    var holds := match op
      case Equal => comp == 0
      case Unequal => comp != 0
      case Less => comp < 0
      case LessEqual => comp <= 0
      case Greater => comp > 0
      case GreaterEqual => comp >= 0;
    if holds then 2 else 0
  }

  /** The value of an expression: && is the minimum, || the maximum, ! the complement. */
  function ExprValue(cfg: Config, env: Env, e: Expr): Tri {
    match e
    case Ref(i) => ValAt(env, i).tri
    case And(a, b) => Min(ExprValue(cfg, env, a), ExprValue(cfg, env, b))
    case Or(a, b) => Max(ExprValue(cfg, env, a), ExprValue(cfg, env, b))
    case Not(a) => 2 - ExprValue(cfg, env, a)
    case Rel(op, a, b) => RelValue(op, Compare(cfg, env, a, b))
  }

  function MaxValue(cfg: Config, env: Env, es: seq<Expr>): Tri {
    if es == [] then 0
    else Max(MaxValue(cfg, env, es[..|es| - 1]), ExprValue(cfg, env, es[|es| - 1]))
  }

  // ---------------------------------------------------------------------------------------------
  // Visibility

  /** Whether the type in effect is tristate: a tristate acts as a bool without modules or in a y-mode choice. */
  predicate ActsTristate(cfg: Config, env: Env, i: nat) {
    var it := cfg.At(i);
    it.typ == Tristate && ValAt(env, cfg.modules).tri != 0
    && !(it.Symbol? && it.choice.Some? && ValAt(env, it.choice.value).tri == 2)
  }

  /** Choice symbols that the mode of their choice hides, although a prompt condition holds. */
  predicate HiddenByMode(cfg: Config, env: Env, i: nat, promptVal: Tri) {
    var it := cfg.At(i);
    it.Symbol? && it.choice.Some? &&
    var mode := ValAt(env, it.choice.value).tri;
    (cfg.At(it.choice.value).typ == Tristate && it.typ != Tristate && mode != 2)
    || (it.typ == Tristate && promptVal == 1 && mode == 2)
  }

  function Visibility(cfg: Config, env: Env, i: nat): Tri {
    var it := cfg.At(i);
    if it.Const? then 0
    else
      var v := MaxValue(cfg, env, it.prompts);
      if HiddenByMode(cfg, env, i, v) then 0
      else if v == 1 && !ActsTristate(cfg, env, i) then 2
      else v
  }

  // ---------------------------------------------------------------------------------------------
  // Choices

  function Mode(cfg: Config, u: User, env: Env, c: nat): Tri
    requires cfg.At(c).Choice?
  {
    var low: Tri := if cfg.At(c).optional then 0 else 1;
    var wanted := if UserAt(u, c).tri.Some? then Max(low, UserAt(u, c).tri.value) else low;
    var val := Min(wanted, ValAt(env, c).vis);
    if val == 1 && (cfg.At(c).typ == Bool || (cfg.At(c).typ == Tristate && !ActsTristate(cfg, env, c)))
    then 2 else val
  }

  function FirstChoiceDefault(cfg: Config, env: Env, ds: seq<ChoiceDefault>): Option<nat> {
    if ds == [] then None
    else if ExprValue(cfg, env, ds[0].cond) > 0 && ValAt(env, ds[0].sym).vis > 0 then Some(ds[0].sym)
    else FirstChoiceDefault(cfg, env, ds[1..])
  }

  function FirstVisible(env: Env, syms: seq<nat>): Option<nat> {
    if syms == [] then None
    else if ValAt(env, syms[0]).vis > 0 then Some(syms[0])
    else FirstVisible(env, syms[1..])
  }

  function SelectionFromDefaults(cfg: Config, env: Env, c: nat): Option<nat>
    requires cfg.At(c).Choice?
  {
    var d := FirstChoiceDefault(cfg, env, cfg.At(c).choiceDefaults);
    if d.Some? then d else FirstVisible(env, cfg.At(c).syms)
  }

  function Selection(cfg: Config, u: User, env: Env, c: nat): Option<nat>
    requires cfg.At(c).Choice?
  {
    if ValAt(env, c).tri != 2 then None
    else if UserAt(u, c).sel.Some? && ValAt(env, UserAt(u, c).sel.value).vis > 0 then UserAt(u, c).sel
    else SelectionFromDefaults(cfg, env, c)
  }

  // ---------------------------------------------------------------------------------------------
  // Bool and tristate values

  function ActiveDefault(cfg: Config, env: Env, ds: seq<Default>): Option<Default> {
    if ds == [] then None
    else if ExprValue(cfg, env, ds[0].cond) > 0 then Some(ds[0])
    else ActiveDefault(cfg, env, ds[1..])
  }

  function DefaultTri(cfg: Config, env: Env, ds: seq<Default>): Tri {
    match ActiveDefault(cfg, env, ds)
    case None => 0
    case Some(d) => Min(ExprValue(cfg, env, d.value), ExprValue(cfg, env, d.cond))
  }

  /** The effect of `imply`, which needs the direct dependencies. */
  function ImpliedTri(cfg: Config, env: Env, it: Item): Tri
    requires it.Symbol?
  {
    if ExprValue(cfg, env, it.directDep) > 0 then ExprValue(cfg, env, it.weakRevDep) else 0
  }

  /** m becomes y for bools and for symbols implied to y. */
  predicate PromotesM(cfg: Config, env: Env, i: nat)
    requires cfg.At(i).Symbol?
  {
    var it := cfg.At(i);
    it.typ == Bool || (it.typ == Tristate && !ActsTristate(cfg, env, i))
    || ExprValue(cfg, env, it.weakRevDep) == 2
  }

  function PlainTri(cfg: Config, u: User, env: Env, i: nat): Tri
    requires cfg.At(i).Symbol?
  {
    var it := cfg.At(i);
    var vis := ValAt(env, i).vis;
    var wanted :=
      if vis > 0 && UserAt(u, i).tri.Some? then Min(UserAt(u, i).tri.value, vis)
      else Max(DefaultTri(cfg, env, it.defaults), ImpliedTri(cfg, env, it));
    var val := Max(wanted, ExprValue(cfg, env, it.revDep));
    if val == 1 && PromotesM(cfg, env, i) then 2 else val
  }

  function ChoiceSymTri(cfg: Config, u: User, env: Env, i: nat, c: nat): Tri {
    var vis := ValAt(env, i).vis;
    if vis == 2 then (if ValAt(env, c).sel == Some(i) then 2 else 0)
    else if vis == 1 && UserAt(u, i).tri.Some? && UserAt(u, i).tri.value > 0 then 1
    else 0
  }

  function TriValue(cfg: Config, u: User, env: Env, i: nat): Tri {
    match cfg.At(i)
    case Const(_, _, val) => val
    case Choice(_, _, _, _, _) => Mode(cfg, u, env, i)
    case Symbol(_, typ, _, _, _, _, _, _, choice, _) =>
      if !IsBoolTri(typ) then 0
      else if choice.Some? then ChoiceSymTri(cfg, u, env, i, choice.value)
      else PlainTri(cfg, u, env, i)
  }

  // ---------------------------------------------------------------------------------------------
  // Text values

  function NumOrZero(s: string, base: nat): int
    requires base == 0 || base == 10 || base == 16
  {
    var n := ParseInt(s, base);
    if n.Some? then n.value else 0
  }

  function ActiveRange(cfg: Config, env: Env, rs: seq<Range>): Option<Range> {
    if rs == [] then None
    else if ExprValue(cfg, env, rs[0].cond) > 0 then Some(rs[0])
    else ActiveRange(cfg, env, rs[1..])
  }

  /** The bounds in effect on an int or hex symbol. */
  function Bounds(cfg: Config, env: Env, it: Item): Option<(int, int)>
    requires it.Symbol?
  {
    var r :- ActiveRange(cfg, env, it.ranges);
    Some((NumOrZero(ValAt(env, r.low).str, Base(it.typ)), NumOrZero(ValAt(env, r.high).str, Base(it.typ))))
  }

  predicate InBounds(bounds: Option<(int, int)>, n: int) {
    bounds.None? || bounds.value.0 <= n <= bounds.value.1
  }

  /** A default outside the range is replaced by the nearest bound, in standard form. */
  function Clamp(typ: SymType, bounds: Option<(int, int)>, s: string): string
    requires IsIntHex(typ)
  {
    var n := NumOrZero(s, Base(typ));
    if bounds.None? then s
    else if n < bounds.value.0 then FormatInt(bounds.value.0, Base(typ))
    else if n > bounds.value.1 then FormatInt(bounds.value.1, Base(typ))
    else s
  }

  function DefaultStr(cfg: Config, env: Env, ds: seq<Default>): string {
    match ActiveDefault(cfg, env, ds)
    case None => ""
    case Some(d) => if d.value.Ref? then ValAt(env, d.value.item).str else ""
  }

  function IntHexStr(cfg: Config, u: User, env: Env, i: nat): string
    requires cfg.At(i).Symbol? && IsIntHex(cfg.At(i).typ)
  {
    var it := cfg.At(i);
    var bounds := Bounds(cfg, env, it);
    var user := UserAt(u, i).str;
    if ValAt(env, i).vis > 0 && user.Some? && user.value != ""
       && InBounds(bounds, NumOrZero(user.value, Base(it.typ))) then user.value
    else Clamp(it.typ, bounds, DefaultStr(cfg, env, it.defaults))
  }

  function StrValue(cfg: Config, u: User, env: Env, i: nat): string {
    var it := cfg.At(i);
    if it.Choice? || IsBoolTri(it.typ) then TriToStr(ValAt(env, i).tri)
    else if it.Const? || it.typ == Unknown then it.name
    else if IsIntHex(it.typ) then IntHexStr(cfg, u, env, i)
    else if ValAt(env, i).vis > 0 && UserAt(u, i).str.Some? then UserAt(u, i).str.value
    else DefaultStr(cfg, env, it.defaults)
  }

  /** Whether the symbol gets an entry in the .config file. */
  predicate WrittenToConf(cfg: Config, env: Env, i: nat) {
    var it := cfg.At(i);
    it.Symbol? && it.typ != Unknown &&
    if IsBoolTri(it.typ) then
      ValAt(env, i).vis > 0
      || (it.choice.None? && (DefaultTri(cfg, env, it.defaults) > 0 || ImpliedTri(cfg, env, it) > 0
                              || ExprValue(cfg, env, it.revDep) > 0))
    else
      !it.hidden && (ValAt(env, i).vis > 0 || ActiveDefault(cfg, env, it.defaults).Some?)
  }

  // ---------------------------------------------------------------------------------------------
  // Assignable values

  function Assignable(cfg: Config, env: Env, i: nat): seq<Tri> {
    var it := cfg.At(i);
    var vis := ValAt(env, i).vis;
    if it.Const? || vis == 0 then []
    else if it.Choice? then
      var asBool := it.typ == Bool || (it.typ == Tristate && !ActsTristate(cfg, env, i));
      if vis == 2 then
        if it.optional then (if asBool then [0, 2] else [0, 1, 2]) else (if asBool then [2] else [1, 2])
      else if it.optional then [0, 1] else [1]
    else if !IsBoolTri(it.typ) then []
    else
      var rev := ExprValue(cfg, env, it.revDep);
      if vis == 2 then
        if it.choice.Some? then [2]
        else if rev == 0 then (if PromotesM(cfg, env, i) then [0, 2] else [0, 1, 2])
        else if rev == 2 then [2]
        else if PromotesM(cfg, env, i) then [2] else [1, 2]
      else if rev == 0 then (if ExprValue(cfg, env, it.weakRevDep) != 2 then [0, 1] else [0, 2])
      else if rev == 2 then [2]
      else [1]
  }

  // ---------------------------------------------------------------------------------------------
  // The equations and their solution

  function Equation(cfg: Config, u: User, env: Env, i: nat): Val {
    Val(Visibility(cfg, env, i), TriValue(cfg, u, env, i), StrValue(cfg, u, env, i),
        if cfg.At(i).Choice? then Selection(cfg, u, env, i) else None)
  }

  function Step(cfg: Config, u: User, env: Env): (r: Env)
    ensures |r| == |cfg.items|
  {
    seq(|cfg.items|, i requires 0 <= i => Equation(cfg, u, env, i))
  }

  /** Every item has the value its equation gives it. */
  predicate Solves(cfg: Config, u: User, env: Env) {
    env == Step(cfg, u, env)
  }

  /** A choice symbol may mention its own choice, whose mode is settled before its symbols. */
  predicate OwnChoice(cfg: Config, i: nat, j: nat) {
    cfg.At(i).Symbol? && cfg.At(i).choice == Some(j)
  }

  predicate ExprBelow(cfg: Config, e: Expr, i: nat) {
    match e
    case Ref(j) => j < |cfg.items| && (cfg.Rank(j) < cfg.Rank(i) || OwnChoice(cfg, i, j))
    case And(a, b) => ExprBelow(cfg, a, i) && ExprBelow(cfg, b, i)
    case Or(a, b) => ExprBelow(cfg, a, i) && ExprBelow(cfg, b, i)
    case Not(a) => ExprBelow(cfg, a, i)
    case Rel(_, a, b) => OperandBelow(cfg, a, i) && OperandBelow(cfg, b, i)
  }

  predicate OperandBelow(cfg: Config, j: nat, i: nat) {
    j < |cfg.items| && cfg.Rank(j) < cfg.Rank(i) && !cfg.At(j).Choice?
  }

  predicate SymbolBelow(cfg: Config, i: nat)
    requires cfg.At(i).Symbol?
  {
    var it := cfg.At(i);
    && (forall k :: 0 <= k < |it.prompts| ==> ExprBelow(cfg, it.prompts[k], i))
    && (forall k :: 0 <= k < |it.defaults| ==>
          ExprBelow(cfg, it.defaults[k].value, i) && ExprBelow(cfg, it.defaults[k].cond, i)
          && (!IsBoolTri(it.typ) ==>
                it.defaults[k].value.Ref? && OperandBelow(cfg, it.defaults[k].value.item, i)))
    && (forall k :: 0 <= k < |it.ranges| ==>
          OperandBelow(cfg, it.ranges[k].low, i) && OperandBelow(cfg, it.ranges[k].high, i)
          && ExprBelow(cfg, it.ranges[k].cond, i))
    && ExprBelow(cfg, it.revDep, i) && ExprBelow(cfg, it.weakRevDep, i) && ExprBelow(cfg, it.directDep, i)
  }

  predicate ChoiceBelow(cfg: Config, c: nat)
    requires cfg.At(c).Choice?
  {
    var it := cfg.At(c);
    && (forall k :: 0 <= k < |it.prompts| ==> ExprBelow(cfg, it.prompts[k], c))
    && (forall k :: 0 <= k < |it.choiceDefaults| ==>
          ExprBelow(cfg, it.choiceDefaults[k].cond, c) && it.choiceDefaults[k].sym in it.syms)
    && (forall s :: s in it.syms ==> OwnChoice(cfg, s, c))
  }

  /** The prompt lies inside choice `c`: the mode of the choice bounds its condition. */
  predicate Guarded(cfg: Config, e: Expr, c: nat) {
    match e
    case Ref(j) => j == c || (cfg.At(j).Const? && cfg.At(j).val == 0)
    case And(a, b) => Guarded(cfg, a, c) || Guarded(cfg, b, c)
    case _ => false
  }

  predicate ItemWellFormed(cfg: Config, i: nat) {
    match cfg.At(i)
    case Const(_, _, _) => true
    case Choice(typ, _, _, _, _) =>
      ChoiceBelow(cfg, i) && (typ == Tristate ==> cfg.Rank(cfg.modules) < cfg.Rank(i))
    case Symbol(_, typ, prompts, _, _, _, _, _, choice, _) =>
      && SymbolBelow(cfg, i)
      && (typ == Tristate ==> cfg.Rank(cfg.modules) < cfg.Rank(i))
      && (choice.Some? ==>
            cfg.At(choice.value).Choice? && i in cfg.At(choice.value).syms
            && cfg.Rank(choice.value) == cfg.Rank(i)
            && forall k :: 0 <= k < |prompts| ==> Guarded(cfg, prompts[k], choice.value))
  }

  /**
    The dependency-loop check passed, and the choices follow the rules the engine warns about: choice
    symbols have their prompt inside the choice, and choice defaults are symbols of the choice.
    */
  predicate WellFormed(cfg: Config) {
    && |cfg.rank| == |cfg.items|
    && cfg.modules < |cfg.items| && !cfg.At(cfg.modules).Choice?
    && forall i :: 0 <= i < |cfg.items| ==> ItemWellFormed(cfg, i)
  }

  /** The user selection of a choice is one of its symbols. */
  predicate ValidUser(cfg: Config, u: User) {
    && |u| == |cfg.items|
    && forall c :: 0 <= c < |u| && cfg.At(c).Choice? && u[c].sel.Some? ==> u[c].sel.value in cfg.At(c).syms
  }

  // ---------------------------------------------------------------------------------------------
  // Settling order: a choice's visibility and mode, its symbols' visibility, its selection, then
  // its symbols' values; lower ranks first.

  function VisLevel(cfg: Config, i: nat): nat { 8 * cfg.Rank(i) + (if cfg.At(i).Choice? then 0 else 2) }

  function TriLevel(cfg: Config, i: nat): nat { 8 * cfg.Rank(i) + (if cfg.At(i).Choice? then 1 else 4) }

  function SelLevel(cfg: Config, i: nat): nat { 8 * cfg.Rank(i) + 3 }

  function StrLevel(cfg: Config, i: nat): nat { 8 * cfg.Rank(i) + 5 }

  ghost predicate AgreeAt(cfg: Config, e1: Env, e2: Env, n: nat, i: nat) {
    && (VisLevel(cfg, i) < n ==> ValAt(e1, i).vis == ValAt(e2, i).vis)
    && (TriLevel(cfg, i) < n ==> ValAt(e1, i).tri == ValAt(e2, i).tri)
    && (SelLevel(cfg, i) < n ==> ValAt(e1, i).sel == ValAt(e2, i).sel)
    && (StrLevel(cfg, i) < n ==> ValAt(e1, i).str == ValAt(e2, i).str)
  }

  /** The environments agree on everything settled before level `n`. */
  ghost predicate AgreeBelow(cfg: Config, e1: Env, e2: Env, n: nat) {
    forall i: nat :: AgreeAt(cfg, e1, e2, n, i)
  }

  ghost predicate ExprReady(cfg: Config, i: nat, n: nat) {
    n >= 8 * cfg.Rank(i) + (if cfg.At(i).Choice? then 0 else 2)
  }

  lemma {:induction false} ExprAgree(cfg: Config, e1: Env, e2: Env, n: nat, i: nat, e: Expr)
    requires WellFormed(cfg) && i < |cfg.items| && ExprBelow(cfg, e, i)
    requires AgreeBelow(cfg, e1, e2, n) && ExprReady(cfg, i, n)
    ensures ExprValue(cfg, e1, e) == ExprValue(cfg, e2, e)
  {
    match e
    case Ref(j) =>
      assert AgreeAt(cfg, e1, e2, n, j);
      if OwnChoice(cfg, i, j) { assert ItemWellFormed(cfg, i); }
    case And(a, b) =>
      ExprAgree(cfg, e1, e2, n, i, a);
      ExprAgree(cfg, e1, e2, n, i, b);
    case Or(a, b) =>
      ExprAgree(cfg, e1, e2, n, i, a);
      ExprAgree(cfg, e1, e2, n, i, b);
    case Not(a) => ExprAgree(cfg, e1, e2, n, i, a);
    case Rel(_, a, b) =>
      assert AgreeAt(cfg, e1, e2, n, a);
      assert AgreeAt(cfg, e1, e2, n, b);
  }

  lemma {:induction false} MaxAgree(cfg: Config, e1: Env, e2: Env, n: nat, i: nat, es: seq<Expr>)
    requires WellFormed(cfg) && i < |cfg.items|
    requires forall k :: 0 <= k < |es| ==> ExprBelow(cfg, es[k], i)
    requires AgreeBelow(cfg, e1, e2, n) && ExprReady(cfg, i, n)
    ensures MaxValue(cfg, e1, es) == MaxValue(cfg, e2, es)
  {
    if es != [] {
      MaxAgree(cfg, e1, e2, n, i, es[..|es| - 1]);
      ExprAgree(cfg, e1, e2, n, i, es[|es| - 1]);
    }
  }

  lemma {:induction false} ActiveDefaultAgree(cfg: Config, e1: Env, e2: Env, n: nat, i: nat, ds: seq<Default>)
    requires WellFormed(cfg) && i < |cfg.items|
    requires forall k :: 0 <= k < |ds| ==> ExprBelow(cfg, ds[k].cond, i)
    requires AgreeBelow(cfg, e1, e2, n) && ExprReady(cfg, i, n)
    ensures ActiveDefault(cfg, e1, ds) == ActiveDefault(cfg, e2, ds)
    ensures ActiveDefault(cfg, e1, ds).Some? ==> ActiveDefault(cfg, e1, ds).value in ds
  {
    if ds != [] {
      ExprAgree(cfg, e1, e2, n, i, ds[0].cond);
      ActiveDefaultAgree(cfg, e1, e2, n, i, ds[1..]);
    }
  }

  lemma {:induction false} ActiveRangeAgree(cfg: Config, e1: Env, e2: Env, n: nat, i: nat, rs: seq<Range>)
    requires WellFormed(cfg) && i < |cfg.items|
    requires forall k :: 0 <= k < |rs| ==> ExprBelow(cfg, rs[k].cond, i)
    requires AgreeBelow(cfg, e1, e2, n) && ExprReady(cfg, i, n)
    ensures ActiveRange(cfg, e1, rs) == ActiveRange(cfg, e2, rs)
    ensures ActiveRange(cfg, e1, rs).Some? ==> ActiveRange(cfg, e1, rs).value in rs
  {
    if rs != [] {
      ExprAgree(cfg, e1, e2, n, i, rs[0].cond);
      ActiveRangeAgree(cfg, e1, e2, n, i, rs[1..]);
    }
  }

  lemma {:induction false} FirstChoiceDefaultAgree(cfg: Config, e1: Env, e2: Env, n: nat, c: nat, ds: seq<ChoiceDefault>)
    requires WellFormed(cfg) && c < |cfg.items| && cfg.At(c).Choice? && n >= SelLevel(cfg, c)
    requires forall k :: 0 <= k < |ds| ==> ExprBelow(cfg, ds[k].cond, c) && ds[k].sym in cfg.At(c).syms
    requires AgreeBelow(cfg, e1, e2, n)
    ensures FirstChoiceDefault(cfg, e1, ds) == FirstChoiceDefault(cfg, e2, ds)
  {
    if ds != [] {
      ExprAgree(cfg, e1, e2, n, c, ds[0].cond);
      MemberLevel(cfg, c, ds[0].sym);
      assert AgreeAt(cfg, e1, e2, n, ds[0].sym);
      FirstChoiceDefaultAgree(cfg, e1, e2, n, c, ds[1..]);
    }
  }

  lemma {:induction false} MemberLevel(cfg: Config, c: nat, s: nat)
    requires WellFormed(cfg) && c < |cfg.items| && cfg.At(c).Choice? && s in cfg.At(c).syms
    ensures OwnChoice(cfg, s, c) && s < |cfg.items| && cfg.Rank(s) == cfg.Rank(c)
    ensures VisLevel(cfg, s) == 8 * cfg.Rank(c) + 2
  {
    assert ItemWellFormed(cfg, c);
    assert OwnChoice(cfg, s, c);
    assert ItemWellFormed(cfg, s);
  }

  lemma {:induction false} FirstVisibleAgree(cfg: Config, e1: Env, e2: Env, n: nat, c: nat, syms: seq<nat>)
    requires WellFormed(cfg) && c < |cfg.items| && cfg.At(c).Choice? && n >= SelLevel(cfg, c)
    requires forall s :: s in syms ==> s in cfg.At(c).syms
    requires AgreeBelow(cfg, e1, e2, n)
    ensures FirstVisible(e1, syms) == FirstVisible(e2, syms)
  {
    if syms != [] {
      MemberLevel(cfg, c, syms[0]);
      assert AgreeAt(cfg, e1, e2, n, syms[0]);
      FirstVisibleAgree(cfg, e1, e2, n, c, syms[1..]);
    }
  }

  lemma {:induction false} VisAgree(cfg: Config, e1: Env, e2: Env, n: nat, i: nat)
    requires WellFormed(cfg) && i < |cfg.items| && AgreeBelow(cfg, e1, e2, n) && n >= VisLevel(cfg, i)
    ensures Visibility(cfg, e1, i) == Visibility(cfg, e2, i)
  {
    var it := cfg.At(i);
    assert ItemWellFormed(cfg, i);
    if !it.Const? {
      MaxAgree(cfg, e1, e2, n, i, it.prompts);
      assert AgreeAt(cfg, e1, e2, n, cfg.modules);
      if it.Symbol? && it.choice.Some? { assert AgreeAt(cfg, e1, e2, n, it.choice.value); }
    }
  }

  lemma {:induction false} TriAgree(cfg: Config, u: User, e1: Env, e2: Env, n: nat, i: nat)
    requires WellFormed(cfg) && i < |cfg.items| && AgreeBelow(cfg, e1, e2, n) && n >= TriLevel(cfg, i)
    ensures TriValue(cfg, u, e1, i) == TriValue(cfg, u, e2, i)
  {
    var it := cfg.At(i);
    assert ItemWellFormed(cfg, i);
    assert AgreeAt(cfg, e1, e2, n, i);
    assert AgreeAt(cfg, e1, e2, n, cfg.modules);
    if it.Symbol? && it.choice.Some? {
      assert AgreeAt(cfg, e1, e2, n, it.choice.value);
    } else if it.Symbol? {
      ActiveDefaultAgree(cfg, e1, e2, n, i, it.defaults);
      var d := ActiveDefault(cfg, e1, it.defaults);
      if d.Some? {
        ExprAgree(cfg, e1, e2, n, i, d.value.value);
        ExprAgree(cfg, e1, e2, n, i, d.value.cond);
      }
      ExprAgree(cfg, e1, e2, n, i, it.weakRevDep);
      ExprAgree(cfg, e1, e2, n, i, it.directDep);
      ExprAgree(cfg, e1, e2, n, i, it.revDep);
    }
  }

  lemma {:induction false} SelAgree(cfg: Config, u: User, e1: Env, e2: Env, n: nat, c: nat)
    requires WellFormed(cfg) && ValidUser(cfg, u) && c < |cfg.items| && cfg.At(c).Choice?
    requires AgreeBelow(cfg, e1, e2, n) && n >= SelLevel(cfg, c)
    ensures Selection(cfg, u, e1, c) == Selection(cfg, u, e2, c)
  {
    assert ItemWellFormed(cfg, c);
    assert AgreeAt(cfg, e1, e2, n, c);
    if u[c].sel.Some? {
      MemberLevel(cfg, c, u[c].sel.value);
      assert AgreeAt(cfg, e1, e2, n, u[c].sel.value);
    }
    FirstChoiceDefaultAgree(cfg, e1, e2, n, c, cfg.At(c).choiceDefaults);
    FirstVisibleAgree(cfg, e1, e2, n, c, cfg.At(c).syms);
  }

  lemma {:induction false} DefaultStrAgree(cfg: Config, e1: Env, e2: Env, n: nat, i: nat)
    requires WellFormed(cfg) && i < |cfg.items| && cfg.At(i).Symbol? && !IsBoolTri(cfg.At(i).typ)
    requires AgreeBelow(cfg, e1, e2, n) && n >= StrLevel(cfg, i)
    ensures DefaultStr(cfg, e1, cfg.At(i).defaults) == DefaultStr(cfg, e2, cfg.At(i).defaults)
  {
    var it := cfg.At(i);
    assert ItemWellFormed(cfg, i);
    ActiveDefaultAgree(cfg, e1, e2, n, i, it.defaults);
    var d := ActiveDefault(cfg, e1, it.defaults);
    if d.Some? {
      assert OperandBelow(cfg, d.value.value.item, i);
      assert AgreeAt(cfg, e1, e2, n, d.value.value.item);
    }
  }

  lemma {:induction false} BoundsAgree(cfg: Config, e1: Env, e2: Env, n: nat, i: nat)
    requires WellFormed(cfg) && i < |cfg.items| && cfg.At(i).Symbol?
    requires AgreeBelow(cfg, e1, e2, n) && n >= StrLevel(cfg, i)
    ensures Bounds(cfg, e1, cfg.At(i)) == Bounds(cfg, e2, cfg.At(i))
  {
    var it := cfg.At(i);
    assert ItemWellFormed(cfg, i);
    ActiveRangeAgree(cfg, e1, e2, n, i, it.ranges);
    var r := ActiveRange(cfg, e1, it.ranges);
    if r.Some? {
      assert AgreeAt(cfg, e1, e2, n, r.value.low);
      assert AgreeAt(cfg, e1, e2, n, r.value.high);
    }
  }

  lemma {:induction false} StrAgree(cfg: Config, u: User, e1: Env, e2: Env, n: nat, i: nat)
    requires WellFormed(cfg) && i < |cfg.items| && AgreeBelow(cfg, e1, e2, n) && n >= StrLevel(cfg, i)
    ensures StrValue(cfg, u, e1, i) == StrValue(cfg, u, e2, i)
  {
    assert AgreeAt(cfg, e1, e2, n, i);
    var it := cfg.At(i);
    if it.Symbol? && !IsBoolTri(it.typ) {
      DefaultStrAgree(cfg, e1, e2, n, i);
      BoundsAgree(cfg, e1, e2, n, i);
    }
  }

  /** Applying the equations settles one more level. */
  lemma {:induction false} StepSettles(cfg: Config, u: User, e1: Env, e2: Env, n: nat)
    requires WellFormed(cfg) && ValidUser(cfg, u) && AgreeBelow(cfg, e1, e2, n)
    ensures AgreeBelow(cfg, Step(cfg, u, e1), Step(cfg, u, e2), n + 1)
  {
    var s1, s2, m := Step(cfg, u, e1), Step(cfg, u, e2), n + 1;
    forall i: nat ensures AgreeAt(cfg, s1, s2, m, i) {
      if i < |cfg.items| {
        if VisLevel(cfg, i) < m { VisAgree(cfg, e1, e2, n, i); }
        if TriLevel(cfg, i) < m { TriAgree(cfg, u, e1, e2, n, i); }
        if SelLevel(cfg, i) < m && cfg.At(i).Choice? { SelAgree(cfg, u, e1, e2, n, i); }
        if StrLevel(cfg, i) < m { StrAgree(cfg, u, e1, e2, n, i); }
      }
    }
  }

  function Height(ranks: seq<nat>): (h: nat)
    ensures forall k :: 0 <= k < |ranks| ==> ranks[k] <= h
  {
    if ranks == [] then 0
    else
      var h := Height(ranks[..|ranks| - 1]);
      if ranks[|ranks| - 1] > h then ranks[|ranks| - 1] else h
  }

  lemma {:induction false} AgreeEverywhere(cfg: Config, e1: Env, e2: Env, n: nat)
    requires WellFormed(cfg) && |e1| == |e2| == |cfg.items|
    requires n >= 8 * Height(cfg.rank) + 8 && AgreeBelow(cfg, e1, e2, n)
    ensures e1 == e2
  {
    forall i | 0 <= i < |e1| ensures e1[i] == e2[i] {
      assert AgreeAt(cfg, e1, e2, n, i);
      assert cfg.rank[i] <= Height(cfg.rank);
    }
  }

  lemma {:induction false} SolutionsAgreeBelow(cfg: Config, u: User, e1: Env, e2: Env, n: nat)
    requires WellFormed(cfg) && ValidUser(cfg, u) && Solves(cfg, u, e1) && Solves(cfg, u, e2)
    ensures AgreeBelow(cfg, e1, e2, n)
  {
    if n > 0 {
      SolutionsAgreeBelow(cfg, u, e1, e2, n - 1);
      StepSettles(cfg, u, e1, e2, n - 1);
    }
  }

  /** A configuration that passed the loop check has at most one consistent assignment of values. */
  lemma {:induction false} SolutionUnique(cfg: Config, u: User, e1: Env, e2: Env)
    requires WellFormed(cfg) && ValidUser(cfg, u) && Solves(cfg, u, e1) && Solves(cfg, u, e2)
    ensures e1 == e2
  {
    var n := 8 * Height(cfg.rank) + 8;
    SolutionsAgreeBelow(cfg, u, e1, e2, n);
    AgreeEverywhere(cfg, e1, e2, n);
  }

  function Iterate(cfg: Config, u: User, n: nat): (env: Env)
    ensures |env| == |cfg.items|
  {
    if n == 0 then seq(|cfg.items|, _ => NOTHING) else Step(cfg, u, Iterate(cfg, u, n - 1))
  }

  lemma {:induction false} IterateSettles(cfg: Config, u: User, n: nat)
    requires WellFormed(cfg) && ValidUser(cfg, u)
    ensures AgreeBelow(cfg, Iterate(cfg, u, n), Iterate(cfg, u, n + 1), n)
  {
    if n > 0 {
      IterateSettles(cfg, u, n - 1);
      StepSettles(cfg, u, Iterate(cfg, u, n - 1), Iterate(cfg, u, n), n - 1);
    }
  }

  /** The values of all items under the given user values, evaluated from scratch. */
  function Values(cfg: Config, u: User): (env: Env)
    requires WellFormed(cfg) && ValidUser(cfg, u)
    ensures Solves(cfg, u, env)
  {
    var n := 8 * Height(cfg.rank) + 8;
    IterateSettles(cfg, u, n);
    AgreeEverywhere(cfg, Iterate(cfg, u, n), Iterate(cfg, u, n + 1), n);
    Iterate(cfg, u, n)
  }

  lemma {:induction false} SolutionIs(cfg: Config, u: User, env: Env)
    requires WellFormed(cfg) && ValidUser(cfg, u) && Solves(cfg, u, env)
    ensures env == Values(cfg, u)
  {
    SolutionUnique(cfg, u, env, Values(cfg, u));
  }

  /** The equation of one item, read off the solution. */
  lemma {:induction false} ValuesAt(cfg: Config, u: User, i: nat)
    requires WellFormed(cfg) && ValidUser(cfg, u) && i < |cfg.items|
    ensures |Values(cfg, u)| == |cfg.items|
    ensures Values(cfg, u)[i] == Equation(cfg, u, Values(cfg, u), i)
  {
    var env := Values(cfg, u);
    assert env[i] == Step(cfg, u, env)[i];
  }
}
