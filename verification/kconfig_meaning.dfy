/**
  What the values mean, said without the evaluator: when an expression is at least or at most a value,
  which text comes first, which default, range, user value or selection counts. Together these
  statements determine the visibility, value and selection of every item.
  */
module KconfigMeaning {
  import opened Basics
  import opened Numbers
  import opened KconfigModel

  // ---------------------------------------------------------------------------------------------
  // Comparisons

  /** `s` comes before `t`: at the first position where they differ it has the lesser character, or it ends. */
  ghost predicate LessAt(s: string, t: string, k: int) {
    && 0 <= k <= |s| && k < |t| && (forall j :: 0 <= j < k ==> s[j] == t[j])
    && (k == |s| || s[k] < t[k])
  }

  ghost predicate Precedes(s: string, t: string) { exists k :: LessAt(s, t, k) }

  lemma {:induction false} PrecedesTail(s: string, t: string)
    requires s != [] && t != [] && s[0] == t[0]
    ensures Precedes(s, t) <==> Precedes(s[1..], t[1..])
  {
    if k :| LessAt(s, t, k) {
      assert LessAt(s[1..], t[1..], k - 1);
    }
    if k :| LessAt(s[1..], t[1..], k) {
      forall j | 0 <= j < k + 1 ensures s[j] == t[j] {
        if j > 0 { assert s[1..][j - 1] == t[1..][j - 1]; }
      }
      assert LessAt(s, t, k + 1);
    }
  }

  lemma {:induction false} StrCmpOrders(s: string, t: string)
    ensures StrCmp(s, t) < 0 <==> Precedes(s, t)
    ensures StrCmp(s, t) > 0 <==> Precedes(t, s)
    ensures StrCmp(s, t) == 0 <==> s == t
    decreases |s|
  {
    if s == [] || t == [] {
      if t != [] { assert LessAt(s, t, 0); }
      if s != [] { assert LessAt(t, s, 0); }
    } else if s[0] == t[0] {
      StrCmpOrders(s[1..], t[1..]);
      PrecedesTail(s, t);
      PrecedesTail(t, s);
      assert s == [s[0]] + s[1..] && t == [t[0]] + t[1..];
    } else if s[0] < t[0] {
      assert LessAt(s, t, 0);
      forall k ensures !LessAt(t, s, k) {}
    } else {
      assert LessAt(t, s, 0);
      forall k ensures !LessAt(s, t, k) {}
    }
  }

  ghost predicate TextRelated(op: RelOp, s: string, t: string) {
    match op
    case Equal => s == t
    case Unequal => s != t
    case Less => Precedes(s, t)
    case LessEqual => Precedes(s, t) || s == t
    case Greater => Precedes(t, s)
    case GreaterEqual => Precedes(t, s) || s == t
  }

  predicate NumbersRelated(op: RelOp, x: int, y: int) {
    match op
    case Equal => x == y
    case Unequal => x != y
    case Less => x < y
    case LessEqual => x <= y
    case Greater => y < x
    case GreaterEqual => y <= x
  }

  /** Two strings or two keys are compared as text, as is anything that does not read as a number. */
  ghost predicate Related(cfg: Config, env: Env, op: RelOp, a: nat, b: nat) {
    var x, y := Num(cfg, env, a), Num(cfg, env, b);
    var s, t := cfg.At(a).typ, cfg.At(b).typ;
    if x.Some? && y.Some? && !(s == t == String) && !(s == t == Key) then NumbersRelated(op, x.value, y.value)
    else TextRelated(op, ValAt(env, a).str, ValAt(env, b).str)
  }

  lemma {:induction false} RelationMeaning(cfg: Config, env: Env, op: RelOp, a: nat, b: nat)
    ensures ExprValue(cfg, env, Rel(op, a, b)) == if Related(cfg, env, op, a, b) then 2 else 0
  {
    hide StrCmp, Num, Precedes;
    StrCmpOrders(ValAt(env, a).str, ValAt(env, b).str);
  }

  /** What an operand counts as: a bool or tristate as n, m or y, a written int or hex value as its number. */
  lemma {:induction false} NumberMeaning(cfg: Config, env: Env, i: nat, n: int)
    ensures IsBoolTri(cfg.At(i).typ) ==> Num(cfg, env, i) == Some(ValAt(env, i).tri)
    ensures cfg.At(i).typ == Int && ValAt(env, i).str == FormatInt(n, 10) ==> Num(cfg, env, i) == Some(n)
    ensures cfg.At(i).typ == Hex && ValAt(env, i).str == FormatInt(n, 16) ==> Num(cfg, env, i) == Some(n)
  {
    FormatRoundTrip(n, 10);
    FormatRoundTrip(n, 16);
  }

  // ---------------------------------------------------------------------------------------------
  // Expressions

  /** The expression is at least `t`. */
  ghost predicate AtLeast(cfg: Config, env: Env, e: Expr, t: Tri) {
    match e
    case Ref(i) => ValAt(env, i).tri >= t
    case And(a, b) => AtLeast(cfg, env, a, t) && AtLeast(cfg, env, b, t)
    case Or(a, b) => AtLeast(cfg, env, a, t) || AtLeast(cfg, env, b, t)
    case Not(a) => AtMost(cfg, env, a, 2 - t)
    case Rel(op, a, b) => t == 0 || Related(cfg, env, op, a, b)
  }

  /** The expression is at most `t`. */
  ghost predicate AtMost(cfg: Config, env: Env, e: Expr, t: Tri) {
    match e
    case Ref(i) => ValAt(env, i).tri <= t
    case And(a, b) => AtMost(cfg, env, a, t) || AtMost(cfg, env, b, t)
    case Or(a, b) => AtMost(cfg, env, a, t) && AtMost(cfg, env, b, t)
    case Not(a) => AtLeast(cfg, env, a, 2 - t)
    case Rel(op, a, b) => t == 2 || !Related(cfg, env, op, a, b)
  }

  lemma {:induction false} ExprMeaning(cfg: Config, env: Env, e: Expr, t: Tri)
    ensures AtLeast(cfg, env, e, t) <==> ExprValue(cfg, env, e) >= t
    ensures AtMost(cfg, env, e, t) <==> ExprValue(cfg, env, e) <= t
    decreases e
  {
    hide Related, Compare, RelValue;
    match e
    case Ref(_) =>
    case And(a, b) =>
      ExprMeaning(cfg, env, a, t);
      ExprMeaning(cfg, env, b, t);
    case Or(a, b) =>
      ExprMeaning(cfg, env, a, t);
      ExprMeaning(cfg, env, b, t);
    case Not(a) => ExprMeaning(cfg, env, a, 2 - t);
    case Rel(op, a, b) => RelationMeaning(cfg, env, op, a, b);
  }

  // ---------------------------------------------------------------------------------------------
  // Visibility

  lemma {:induction false} PromptsMeaning(cfg: Config, env: Env, es: seq<Expr>, t: Tri)
    requires t > 0
    ensures MaxValue(cfg, env, es) >= t <==> exists k :: 0 <= k < |es| && ExprValue(cfg, env, es[k]) >= t
  {
    hide ExprValue;
    if es != [] {
      var n := |es| - 1;
      PromptsMeaning(cfg, env, es[..n], t);
      if k :| 0 <= k < n && ExprValue(cfg, env, es[..n][k]) >= t { assert ExprValue(cfg, env, es[k]) >= t; }
      if k :| 0 <= k < n && ExprValue(cfg, env, es[k]) >= t { assert ExprValue(cfg, env, es[..n][k]) >= t; }
    }
  }

  /** Some prompt of the item is at least `t`. */
  ghost predicate Prompted(cfg: Config, env: Env, i: nat, t: Tri) {
    !cfg.At(i).Const? && exists k :: 0 <= k < |cfg.At(i).prompts| && ExprValue(cfg, env, cfg.At(i).prompts[k]) >= t
  }

  /** MODULES is not n. */
  ghost predicate ModulesOn(cfg: Config, env: Env) { ValAt(env, cfg.modules).tri > 0 }

  /** Outside choices: visible with a prompt, and only to m if that is all it has and it can be m. */
  lemma {:induction false} VisibilityMeaning(cfg: Config, u: User, i: nat)
    requires WellFormed(cfg) && ValidUser(cfg, u) && i < |cfg.items|
    requires cfg.At(i).Symbol? ==> cfg.At(i).choice.None?
    ensures var env, canBeM := Values(cfg, u), cfg.At(i).typ == Tristate && ModulesOn(cfg, Values(cfg, u));
      && (env[i].vis >= 1 <==> Prompted(cfg, env, i, 1))
      && (env[i].vis == 2 <==> Prompted(cfg, env, i, 2) || (Prompted(cfg, env, i, 1) && !canBeM))
  {
    hide Values, ExprValue, MaxValue, WellFormed;
    ValuesAt(cfg, u, i);
    if !cfg.At(i).Const? {
      PromptsMeaning(cfg, Values(cfg, u), cfg.At(i).prompts, 1);
      PromptsMeaning(cfg, Values(cfg, u), cfg.At(i).prompts, 2);
    }
  }

  /**
    Inside a choice: in y mode a tristate symbol is visible with a y prompt only; a bool of a tristate
    choice is visible in y mode only.
    */
  lemma {:induction false} ChoiceSymVisibilityMeaning(cfg: Config, u: User, i: nat)
    requires WellFormed(cfg) && ValidUser(cfg, u) && i < |cfg.items| && cfg.At(i).Symbol? && cfg.At(i).choice.Some?
    ensures var env, c := Values(cfg, u), cfg.At(i).choice.value;
      var mode, tristate := ValAt(env, c).tri, cfg.At(i).typ == Tristate;
      && (env[i].vis >= 1 <==>
            if tristate && mode == 2 then Prompted(cfg, env, i, 2)
            else Prompted(cfg, env, i, 1) && (tristate || cfg.At(c).typ != Tristate || mode == 2))
      && (env[i].vis == 1 <==> tristate && mode != 2 && ModulesOn(cfg, env) && Prompted(cfg, env, i, 1) && !Prompted(cfg, env, i, 2))
  {
    hide Values, ExprValue, MaxValue, WellFormed;
    ValuesAt(cfg, u, i);
    PromptsMeaning(cfg, Values(cfg, u), cfg.At(i).prompts, 1);
    PromptsMeaning(cfg, Values(cfg, u), cfg.At(i).prompts, 2);
  }

  // ---------------------------------------------------------------------------------------------
  // Defaults and ranges

  /** Default `k` is the first whose condition holds. */
  ghost predicate FirstDefault(cfg: Config, env: Env, ds: seq<Default>, k: int) {
    && 0 <= k < |ds| && ExprValue(cfg, env, ds[k].cond) > 0
    && forall j :: 0 <= j < k ==> ExprValue(cfg, env, ds[j].cond) == 0
  }

  lemma {:induction false} DefaultMeaning(cfg: Config, env: Env, ds: seq<Default>)
    ensures forall k :: FirstDefault(cfg, env, ds, k) ==> ActiveDefault(cfg, env, ds) == Some(ds[k])
    ensures ActiveDefault(cfg, env, ds).Some? <==> exists k :: FirstDefault(cfg, env, ds, k)
  {
    hide ExprValue;
    if ds != [] {
      DefaultMeaning(cfg, env, ds[1..]);
      if ExprValue(cfg, env, ds[0].cond) > 0 {
        assert FirstDefault(cfg, env, ds, 0);
      } else {
        forall k | FirstDefault(cfg, env, ds, k) ensures FirstDefault(cfg, env, ds[1..], k - 1) {
          assert ds[1..][k - 1] == ds[k];
          forall j | 0 <= j < k - 1 ensures ExprValue(cfg, env, ds[1..][j].cond) == 0 { assert ds[1..][j] == ds[j + 1]; }
        }
        if k :| FirstDefault(cfg, env, ds[1..], k) {
          forall j | 0 <= j < k + 1 ensures ExprValue(cfg, env, ds[j].cond) == 0 {
            if j > 0 { assert ds[1..][j - 1] == ds[j]; }
          }
          assert FirstDefault(cfg, env, ds, k + 1);
        }
      }
    }
  }

  /** Range `k` is the first whose condition holds. */
  ghost predicate FirstRange(cfg: Config, env: Env, rs: seq<Range>, k: int) {
    && 0 <= k < |rs| && ExprValue(cfg, env, rs[k].cond) > 0
    && forall j :: 0 <= j < k ==> ExprValue(cfg, env, rs[j].cond) == 0
  }

  lemma {:induction false} RangeMeaning(cfg: Config, env: Env, rs: seq<Range>)
    ensures forall k :: FirstRange(cfg, env, rs, k) ==> ActiveRange(cfg, env, rs) == Some(rs[k])
    ensures ActiveRange(cfg, env, rs).Some? <==> exists k :: FirstRange(cfg, env, rs, k)
  {
    hide ExprValue;
    if rs != [] {
      RangeMeaning(cfg, env, rs[1..]);
      if ExprValue(cfg, env, rs[0].cond) > 0 {
        assert FirstRange(cfg, env, rs, 0);
      } else {
        forall k | FirstRange(cfg, env, rs, k) ensures FirstRange(cfg, env, rs[1..], k - 1) {
          assert rs[1..][k - 1] == rs[k];
          forall j | 0 <= j < k - 1 ensures ExprValue(cfg, env, rs[1..][j].cond) == 0 { assert rs[1..][j] == rs[j + 1]; }
        }
        if k :| FirstRange(cfg, env, rs[1..], k) {
          forall j | 0 <= j < k + 1 ensures ExprValue(cfg, env, rs[j].cond) == 0 {
            if j > 0 { assert rs[1..][j - 1] == rs[j]; }
          }
          assert FirstRange(cfg, env, rs, k + 1);
        }
      }
    }
  }

  // ---------------------------------------------------------------------------------------------
  // Bool and tristate values

  /** What asks for at least `t`: the visible user value, or else the first default or an imply; a select always. */
  ghost predicate Wanted(cfg: Config, u: User, env: Env, i: nat, t: Tri)
    requires cfg.At(i).Symbol?
  {
    var it := cfg.At(i);
    || ExprValue(cfg, env, it.revDep) >= t
    || if ValAt(env, i).vis > 0 && UserAt(u, i).tri.Some? then UserAt(u, i).tri.value >= t && ValAt(env, i).vis >= t
       else
         || (exists k :: FirstDefault(cfg, env, it.defaults, k)
                         && ExprValue(cfg, env, it.defaults[k].value) >= t && ExprValue(cfg, env, it.defaults[k].cond) >= t)
         || (ExprValue(cfg, env, it.directDep) > 0 && ExprValue(cfg, env, it.weakRevDep) >= t)
  }

  /** A plain symbol has the least value that is wanted; m becomes y where it cannot stay m. */
  lemma {:induction false} PlainValueMeaning(cfg: Config, u: User, i: nat)
    requires WellFormed(cfg) && ValidUser(cfg, u) && i < |cfg.items|
    requires cfg.At(i).Symbol? && cfg.At(i).choice.None? && IsBoolTri(cfg.At(i).typ)
    ensures var env, it := Values(cfg, u), cfg.At(i);
      var staysM := it.typ == Tristate && ModulesOn(cfg, env) && ExprValue(cfg, env, it.weakRevDep) < 2;
      && (env[i].tri >= 1 <==> Wanted(cfg, u, env, i, 1))
      && (env[i].tri == 2 <==> Wanted(cfg, u, env, i, 2) || (Wanted(cfg, u, env, i, 1) && !staysM))
      && env[i].str == TriToStr(env[i].tri)
  {
    hide Values, ExprValue, WellFormed, ActiveDefault;
    var env, it := Values(cfg, u), cfg.At(i);
    ValuesAt(cfg, u, i);
    DefaultMeaning(cfg, env, it.defaults);
    WantedDefault(cfg, env, it.defaults, 1);
    WantedDefault(cfg, env, it.defaults, 2);
  }

  lemma {:induction false} WantedDefault(cfg: Config, env: Env, ds: seq<Default>, t: Tri)
    requires t > 0
    ensures DefaultTri(cfg, env, ds) >= t <==>
            exists k :: FirstDefault(cfg, env, ds, k) && ExprValue(cfg, env, ds[k].value) >= t && ExprValue(cfg, env, ds[k].cond) >= t
  {
    hide ExprValue, ActiveDefault;
    DefaultMeaning(cfg, env, ds);
    if k :| FirstDefault(cfg, env, ds, k) { assert ActiveDefault(cfg, env, ds) == Some(ds[k]); }
  }

  /** A choice symbol: y if selected in y mode; m in m mode if the user set it. */
  lemma {:induction false} ChoiceSymValueMeaning(cfg: Config, u: User, i: nat)
    requires WellFormed(cfg) && ValidUser(cfg, u) && i < |cfg.items|
    requires cfg.At(i).Symbol? && cfg.At(i).choice.Some? && IsBoolTri(cfg.At(i).typ)
    ensures var env := Values(cfg, u);
      && (env[i].tri == 2 <==> env[i].vis == 2 && ValAt(env, cfg.At(i).choice.value).sel == Some(i))
      && (env[i].tri == 1 <==> env[i].vis == 1 && u[i].tri.Some? && u[i].tri.value > 0)
      && env[i].str == TriToStr(env[i].tri)
  {
    hide Values, Visibility, WellFormed;
    ValuesAt(cfg, u, i);
  }

  /** The mode: within visibility, at least m unless optional, as the user set it; a bool choice is not m. */
  lemma {:induction false} ModeMeaning(cfg: Config, u: User, c: nat)
    requires WellFormed(cfg) && ValidUser(cfg, u) && c < |cfg.items| && cfg.At(c).Choice? && IsBoolTri(cfg.At(c).typ)
    ensures var env, it := Values(cfg, u), cfg.At(c);
      var canBeM := it.typ == Tristate && ModulesOn(cfg, env);
      var asked := (t: int) => (t <= 1 && !it.optional) || (u[c].tri.Some? && u[c].tri.value >= t);
      && (env[c].tri >= 1 <==> env[c].vis >= 1 && asked(1))
      && (env[c].tri == 2 <==> (env[c].vis == 2 && asked(2)) || (env[c].vis >= 1 && asked(1) && !canBeM))
  {
    hide Values, Visibility, WellFormed;
    ValuesAt(cfg, u, c);
  }

  // ---------------------------------------------------------------------------------------------
  // Selections

  /** Choice default `k` is the first that holds and whose symbol is visible. */
  ghost predicate FirstPick(cfg: Config, env: Env, ds: seq<ChoiceDefault>, k: int) {
    && 0 <= k < |ds| && ExprValue(cfg, env, ds[k].cond) > 0 && ValAt(env, ds[k].sym).vis > 0
    && forall j :: 0 <= j < k ==> ExprValue(cfg, env, ds[j].cond) == 0 || ValAt(env, ds[j].sym).vis == 0
  }

  ghost predicate FirstShown(env: Env, syms: seq<nat>, k: int) {
    0 <= k < |syms| && ValAt(env, syms[k]).vis > 0 && forall j :: 0 <= j < k ==> ValAt(env, syms[j]).vis == 0
  }

  lemma {:induction false} PickMeaning(cfg: Config, env: Env, ds: seq<ChoiceDefault>)
    ensures forall k :: FirstPick(cfg, env, ds, k) ==> FirstChoiceDefault(cfg, env, ds) == Some(ds[k].sym)
    ensures FirstChoiceDefault(cfg, env, ds).Some? <==> exists k :: FirstPick(cfg, env, ds, k)
  {
    hide ExprValue;
    if ds != [] {
      PickMeaning(cfg, env, ds[1..]);
      if ExprValue(cfg, env, ds[0].cond) > 0 && ValAt(env, ds[0].sym).vis > 0 {
        assert FirstPick(cfg, env, ds, 0);
      } else {
        forall k | FirstPick(cfg, env, ds, k) ensures FirstPick(cfg, env, ds[1..], k - 1) {
          assert ds[1..][k - 1] == ds[k];
          forall j | 0 <= j < k - 1
            ensures ExprValue(cfg, env, ds[1..][j].cond) == 0 || ValAt(env, ds[1..][j].sym).vis == 0
          {
            assert ds[1..][j] == ds[j + 1];
          }
        }
        if k :| FirstPick(cfg, env, ds[1..], k) {
          forall j | 0 <= j < k + 1 ensures ExprValue(cfg, env, ds[j].cond) == 0 || ValAt(env, ds[j].sym).vis == 0 {
            if j > 0 { assert ds[1..][j - 1] == ds[j]; }
          }
          assert FirstPick(cfg, env, ds, k + 1);
        }
      }
    }
  }

  lemma {:induction false} ShownMeaning(env: Env, syms: seq<nat>)
    ensures forall k :: FirstShown(env, syms, k) ==> FirstVisible(env, syms) == Some(syms[k])
    ensures FirstVisible(env, syms).Some? <==> exists k :: FirstShown(env, syms, k)
  {
    if syms != [] {
      ShownMeaning(env, syms[1..]);
      if ValAt(env, syms[0]).vis > 0 {
        assert FirstShown(env, syms, 0);
      } else {
        forall k | FirstShown(env, syms, k) ensures FirstShown(env, syms[1..], k - 1) {}
        if k :| FirstShown(env, syms[1..], k) {
          forall j | 0 <= j < k + 1 ensures ValAt(env, syms[j]).vis == 0 { if j > 0 { assert syms[1..][j - 1] == syms[j]; } }
          assert FirstShown(env, syms, k + 1);
        }
      }
    }
  }

  /**
    In y mode a visible user selection wins, then the first default that holds and is visible, then the
    first visible symbol; in other modes nothing is selected.
    */
  lemma {:induction false} SelectionMeaning(cfg: Config, u: User, c: nat)
    requires WellFormed(cfg) && ValidUser(cfg, u) && c < |cfg.items| && cfg.At(c).Choice?
    ensures var env, it := Values(cfg, u), cfg.At(c);
      var chosen := u[c].sel.Some? && ValAt(env, u[c].sel.value).vis > 0;
      && (env[c].tri < 2 ==> env[c].sel == None)
      && (env[c].tri == 2 && chosen ==> env[c].sel == u[c].sel)
      && (env[c].tri == 2 && !chosen ==>
            && (forall k :: FirstPick(cfg, env, it.choiceDefaults, k) ==> env[c].sel == Some(it.choiceDefaults[k].sym))
            && ((forall k :: !FirstPick(cfg, env, it.choiceDefaults, k)) ==>
                  && (forall k :: FirstShown(env, it.syms, k) ==> env[c].sel == Some(it.syms[k]))
                  && ((forall k :: !FirstShown(env, it.syms, k)) ==> env[c].sel == None)))
  {
    hide Values, WellFormed, FirstChoiceDefault, FirstVisible, Mode, Visibility;
    ValuesAt(cfg, u, c);
    PickMeaning(cfg, Values(cfg, u), cfg.At(c).choiceDefaults);
    ShownMeaning(Values(cfg, u), cfg.At(c).syms);
  }

  // ---------------------------------------------------------------------------------------------
  // Text values

  /** The text of the first default that holds; empty if there is none. */
  ghost predicate DefaultText(cfg: Config, env: Env, i: nat, s: string)
    requires cfg.At(i).Symbol?
  {
    var ds := cfg.At(i).defaults;
    && (forall k :: FirstDefault(cfg, env, ds, k) && ds[k].value.Ref? ==> s == ValAt(env, ds[k].value.item).str)
    && ((forall k :: !FirstDefault(cfg, env, ds, k)) ==> s == "")
  }

  lemma {:induction false} DefaultTextIs(cfg: Config, env: Env, i: nat)
    requires cfg.At(i).Symbol?
    ensures DefaultText(cfg, env, i, DefaultStr(cfg, env, cfg.At(i).defaults))
  {
    hide ExprValue, ActiveDefault, FirstDefault;
    DefaultMeaning(cfg, env, cfg.At(i).defaults);
  }

  /** Strings and keys: the user value if visible, else the default. */
  lemma {:induction false} TextMeaning(cfg: Config, u: User, i: nat)
    requires WellFormed(cfg) && ValidUser(cfg, u) && i < |cfg.items|
    requires cfg.At(i).Symbol? && (cfg.At(i).typ == String || cfg.At(i).typ == Key)
    ensures var env := Values(cfg, u);
            if env[i].vis > 0 && u[i].str.Some? then env[i].str == u[i].str.value else DefaultText(cfg, env, i, env[i].str)
  {
    hide Values, WellFormed, DefaultStr, DefaultText, Visibility;
    ValuesAt(cfg, u, i);
    DefaultTextIs(cfg, Values(cfg, u), i);
  }

  /** The number a text stands for, 0 if none. */
  function Reading(s: string, typ: SymType): int
    requires IsIntHex(typ)
  {
    match ParseInt(s, if typ == Int then 10 else 16)
    case None => 0
    case Some(n) => n
  }

  /** `n` is within the first range that holds, if there is one. */
  ghost predicate Within(cfg: Config, env: Env, i: nat, n: int)
    requires cfg.At(i).Symbol? && IsIntHex(cfg.At(i).typ)
  {
    var rs, typ := cfg.At(i).ranges, cfg.At(i).typ;
    forall k :: FirstRange(cfg, env, rs, k) ==>
      Reading(ValAt(env, rs[k].low).str, typ) <= n <= Reading(ValAt(env, rs[k].high).str, typ)
  }

  lemma {:induction false} BoundsMeaning(cfg: Config, env: Env, i: nat, n: int)
    requires cfg.At(i).Symbol? && IsIntHex(cfg.At(i).typ)
    ensures InBounds(Bounds(cfg, env, cfg.At(i)), n) <==> Within(cfg, env, i, n)
  {
    hide ExprValue, ActiveRange, FirstRange, ParseInt;
    RangeMeaning(cfg, env, cfg.At(i).ranges);
  }

  /**
    Ints and hexes: a non-empty user value counts if it is visible and within the range; otherwise the
    default, or the nearer end of the range if the default is outside.
    */
  lemma {:induction false} IntHexMeaning(cfg: Config, u: User, i: nat, d: string)
    requires WellFormed(cfg) && ValidUser(cfg, u) && i < |cfg.items| && cfg.At(i).Symbol? && IsIntHex(cfg.At(i).typ)
    requires DefaultText(cfg, Values(cfg, u), i, d)
    requires forall k :: 0 <= k < |cfg.At(i).defaults| ==> cfg.At(i).defaults[k].value.Ref?
    ensures var env, typ, rs := Values(cfg, u), cfg.At(i).typ, cfg.At(i).ranges;
      var base := if typ == Int then 10 else 16;
      if env[i].vis > 0 && u[i].str.Some? && u[i].str.value != "" && Within(cfg, env, i, Reading(u[i].str.value, typ))
      then env[i].str == u[i].str.value
      else
        && (Within(cfg, env, i, Reading(d, typ)) ==> env[i].str == d)
        && forall k :: FirstRange(cfg, env, rs, k) ==>
             var low, high := Reading(ValAt(env, rs[k].low).str, typ), Reading(ValAt(env, rs[k].high).str, typ);
             && (Reading(d, typ) < low ==> env[i].str == FormatInt(low, base))
             && (low <= Reading(d, typ) && high < Reading(d, typ) ==> env[i].str == FormatInt(high, base))
  {
    hide Values, WellFormed, ParseInt, FormatInt, ActiveRange, ActiveDefault, ExprValue, FirstRange, FirstDefault, Visibility;
    var env, it := Values(cfg, u), cfg.At(i);
    ValuesAt(cfg, u, i);
    DefaultMeaning(cfg, env, it.defaults);
    if m :| FirstDefault(cfg, env, it.defaults, m) { FirstDefaultAt(cfg, env, it.defaults, m); }
    assert d == DefaultStr(cfg, env, it.defaults);
    BoundsMeaning(cfg, env, i, Reading(d, it.typ));
    if u[i].str.Some? { BoundsMeaning(cfg, env, i, Reading(u[i].str.value, it.typ)); }
    RangeMeaning(cfg, env, it.ranges);
  }

  lemma {:induction false} FirstDefaultAt(cfg: Config, env: Env, ds: seq<Default>, k: int)
    requires FirstDefault(cfg, env, ds, k)
    ensures 0 <= k < |ds|
  {
  }

  // ---------------------------------------------------------------------------------------------
  // What is written

  /** A plain bool or tristate is written if it is visible or not n; other symbols if visible or given a default. */
  lemma {:induction false} WrittenMeaning(cfg: Config, u: User, i: nat)
    requires WellFormed(cfg) && ValidUser(cfg, u) && i < |cfg.items| && cfg.At(i).Symbol? && cfg.At(i).typ != Unknown
    ensures var env, it := Values(cfg, u), cfg.At(i);
      WrittenToConf(cfg, env, i) <==>
      if IsBoolTri(it.typ) then env[i].vis > 0 || (it.choice.None? && env[i].tri > 0)
      else !it.hidden && (env[i].vis > 0 || exists k :: FirstDefault(cfg, env, it.defaults, k))
  {
    hide Values, WellFormed, ExprValue, ActiveDefault, FirstDefault, Visibility;
    ValuesAt(cfg, u, i);
    DefaultMeaning(cfg, Values(cfg, u), cfg.At(i).defaults);
  }
}
