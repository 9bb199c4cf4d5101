/** What holds in every configuration state: choices are exclusive, `assignable` is exact. */
module KconfigProps {
  import opened Basics
  import opened KconfigModel
  import opened KconfigEngine

  // ---------------------------------------------------------------------------------------------
  // Choices

  lemma {:induction false} GuardedBound(cfg: Config, u: User, env: Env, e: Expr, i: nat, c: nat)
    requires Solves(cfg, u, env) && Guarded(cfg, e, c) && ExprBelow(cfg, e, i)
    ensures ExprValue(cfg, env, e) <= ValAt(env, c).tri
  {
    match e
    case Ref(j) => assert env[j] == Step(cfg, u, env)[j];
    case And(a, b) =>
      if Guarded(cfg, a, c) { GuardedBound(cfg, u, env, a, i, c); } else { GuardedBound(cfg, u, env, b, i, c); }
    case Or(_, _) =>
    case Not(_) =>
    case Rel(_, _, _) =>
  }

  lemma {:induction false} PromptsBound(cfg: Config, u: User, env: Env, es: seq<Expr>, i: nat, c: nat)
    requires Solves(cfg, u, env)
    requires forall k :: 0 <= k < |es| ==> Guarded(cfg, es[k], c) && ExprBelow(cfg, es[k], i)
    ensures MaxValue(cfg, env, es) <= ValAt(env, c).tri
  {
    if es != [] {
      PromptsBound(cfg, u, env, es[..|es| - 1], i, c);
      GuardedBound(cfg, u, env, es[|es| - 1], i, c);
    }
  }

  lemma {:induction false} FirstChoiceDefaultIs(cfg: Config, env: Env, ds: seq<ChoiceDefault>)
    ensures var d := FirstChoiceDefault(cfg, env, ds);
            d.Some? ==> ValAt(env, d.value).vis > 0 && exists k :: 0 <= k < |ds| && ds[k].sym == d.value
  {
    if ds != [] {
      FirstChoiceDefaultIs(cfg, env, ds[1..]);
      var d := FirstChoiceDefault(cfg, env, ds[1..]);
      if d.Some? && d == FirstChoiceDefault(cfg, env, ds) && d != Some(ds[0].sym) {
        var k :| 0 <= k < |ds[1..]| && ds[1..][k].sym == d.value;
        assert ds[k + 1].sym == d.value;
      }
    }
  }

  lemma {:induction false} FirstVisibleIs(env: Env, syms: seq<nat>)
    ensures var d := FirstVisible(env, syms);
            if d.Some? then d.value in syms && ValAt(env, d.value).vis > 0
            else forall s :: s in syms ==> ValAt(env, s).vis == 0
  {
    if syms != [] {
      FirstVisibleIs(env, syms[1..]);
      assert syms == [syms[0]] + syms[1..];
    }
  }

  /** The selection of a choice is a visible symbol of it, and there is one if any symbol is visible in y mode. */
  lemma {:induction false} SelectionIs(cfg: Config, u: User, c: nat)
    requires WellFormed(cfg) && ValidUser(cfg, u) && c < |cfg.items| && cfg.At(c).Choice?
    ensures var env := Values(cfg, u);
      && (env[c].sel.Some? ==>
            env[c].tri == 2 && env[c].sel.value in cfg.At(c).syms && ValAt(env, env[c].sel.value).vis > 0)
      && (env[c].tri == 2 && env[c].sel.None? ==> forall s :: s in cfg.At(c).syms ==> ValAt(env, s).vis == 0)
  {
    var env := Values(cfg, u);
    ValuesAt(cfg, u, c);
    assert ItemWellFormed(cfg, c);
    FirstChoiceDefaultIs(cfg, env, cfg.At(c).choiceDefaults);
    FirstVisibleIs(env, cfg.At(c).syms);
  }

  /** The mode of the choice decides which values a choice symbol can have. */
  lemma {:induction false} ChoiceSymValue(cfg: Config, u: User, c: nat, s: nat)
    requires WellFormed(cfg) && ValidUser(cfg, u) && c < |cfg.items| && cfg.At(c).Choice? && s in cfg.At(c).syms
    ensures var env := Values(cfg, u);
      && s < |env| && env[s].tri <= env[c].tri
      && (env[c].tri == 2 ==>
            env[s].vis != 1 && (env[s].tri == 2 <==> env[c].sel == Some(s) && IsBoolTri(cfg.At(s).typ))
            && (env[s].tri == 2 || env[s].tri == 0))
  {
    var env := Values(cfg, u);
    MemberLevel(cfg, c, s);
    assert ItemWellFormed(cfg, s);
    ValuesAt(cfg, u, c);
    ValuesAt(cfg, u, s);
    SelectionIs(cfg, u, c);
    PromptsBound(cfg, u, env, cfg.At(s).prompts, s, c);
  }

  /**
    Choice exclusivity, in every configuration state: in y mode at most one symbol is y, the others are
    n, and exactly one is y if any is visible; in m mode no symbol exceeds m; in n mode all are n.
    */
  lemma {:induction false} ChoiceExclusive(cfg: Config, u: User, c: nat)
    requires WellFormed(cfg) && ValidUser(cfg, u) && c < |cfg.items| && cfg.At(c).Choice?
    ensures var env, syms := Values(cfg, u), cfg.At(c).syms;
      && (forall s :: s in syms ==> ValAt(env, s).tri <= env[c].tri)
      && (env[c].tri == 2 ==> forall s :: s in syms ==> ValAt(env, s).tri == 0 || ValAt(env, s).tri == 2)
      && (forall s, t :: s in syms && t in syms && ValAt(env, s).tri == 2 && ValAt(env, t).tri == 2 ==> s == t)
      && (env[c].tri == 2 && (forall s :: s in syms ==> IsBoolTri(cfg.At(s).typ)) ==>
            ((exists s :: s in syms && ValAt(env, s).vis > 0) <==> (exists s :: s in syms && ValAt(env, s).tri == 2)))
  {
    var env, syms := Values(cfg, u), cfg.At(c).syms;
    SelectionIs(cfg, u, c);
    forall s | s in syms
      ensures ValAt(env, s).tri <= env[c].tri
      ensures env[c].tri == 2 ==> ValAt(env, s).tri == 0 || ValAt(env, s).tri == 2
      ensures ValAt(env, s).tri == 2 ==> env[c].sel == Some(s)
    {
      ChoiceSymValue(cfg, u, c, s);
    }
    if env[c].tri == 2 && env[c].sel.Some? { ChoiceSymValue(cfg, u, c, env[c].sel.value); }
  }

  // ---------------------------------------------------------------------------------------------
  // Assignable values

  /** The equation of an item reads the user values of that item only; a choice's mode not its selection. */
  lemma {:induction false} SameUserValues(cfg: Config, u: User, v: User, env: Env, i: nat)
    requires |u| == |v| == |cfg.items| && i < |u|
    ensures u[i] == v[i] ==> Equation(cfg, u, env, i) == Equation(cfg, v, env, i)
    ensures cfg.At(i).Choice? && u[i].tri == v[i].tri ==>
              TriValue(cfg, u, env, i) == TriValue(cfg, v, env, i) && StrValue(cfg, u, env, i) == StrValue(cfg, v, env, i)
  {
  }

  /** What is settled before every item whose user values differ is the same; a selection is settled after the mode. */
  lemma {:induction false} UserAgreesBelow(cfg: Config, u: User, v: User, n: nat)
    requires WellFormed(cfg) && ValidUser(cfg, u) && ValidUser(cfg, v)
    requires forall k :: 0 <= k < |u| && u[k] != v[k] ==>
               n <= TriLevel(cfg, k) || (cfg.At(k).Choice? && u[k].tri == v[k].tri && n <= SelLevel(cfg, k))
    ensures AgreeBelow(cfg, Values(cfg, u), Values(cfg, v), n)
  {
    hide Values, Visibility, TriValue, Selection, StrValue, WellFormed;
    if n > 0 {
      var e1, e2, m := Values(cfg, u), Values(cfg, v), n - 1;
      UserAgreesBelow(cfg, u, v, m);
      forall i: nat ensures AgreeAt(cfg, e1, e2, n, i) {
        if i < |cfg.items| {
          SameUserValues(cfg, u, v, e2, i);
          ValuesAt(cfg, u, i);
          ValuesAt(cfg, v, i);
          assert AgreeAt(cfg, e1, e2, m, i);
          if VisLevel(cfg, i) < n { VisAgree(cfg, e1, e2, m, i); }
          if TriLevel(cfg, i) < n { TriAgree(cfg, u, e1, e2, m, i); }
          if SelLevel(cfg, i) < n && cfg.At(i).Choice? { SelAgree(cfg, u, e1, e2, m, i); }
          if StrLevel(cfg, i) < n { StrAgree(cfg, u, e1, e2, m, i); }
        }
      }
    }
  }

  /** Setting a symbol leaves its own visibility, select and imply values and its type unchanged. */
  lemma {:induction false} SetKeepsOwnBounds(cfg: Config, u: User, v: User, s: nat)
    requires WellFormed(cfg) && ValidUser(cfg, u) && ValidUser(cfg, v) && s < |cfg.items| && cfg.At(s).Symbol?
    requires cfg.At(s).choice.None? && forall k :: 0 <= k < |u| && k != s ==> u[k] == v[k]
    ensures var e1, e2, it := Values(cfg, u), Values(cfg, v), cfg.At(s);
      && e1[s].vis == e2[s].vis
      && ExprValue(cfg, e1, it.revDep) == ExprValue(cfg, e2, it.revDep)
      && ExprValue(cfg, e1, it.weakRevDep) == ExprValue(cfg, e2, it.weakRevDep)
      && PromotesM(cfg, e1, s) == PromotesM(cfg, e2, s)
  {
    var e1, e2, n := Values(cfg, u), Values(cfg, v), TriLevel(cfg, s);
    UserAgreesBelow(cfg, u, v, n);
    assert ItemWellFormed(cfg, s);
    assert AgreeAt(cfg, e1, e2, n, s);
    assert AgreeAt(cfg, e1, e2, n, cfg.modules);
    ExprAgree(cfg, e1, e2, n, s, cfg.At(s).revDep);
    ExprAgree(cfg, e1, e2, n, s, cfg.At(s).weakRevDep);
  }

  /** The value the symbol gets when it is set to `val`. */
  ghost function ValueAfterSet(cfg: Config, u: User, s: nat, val: Tri): Tri
    requires WellFormed(cfg) && ValidUser(cfg, u) && TypedUser(cfg, u) && s < |cfg.items| && cfg.At(s).Symbol?
  {
    SetUserValid(cfg, u, s, TriV(val));
    Values(cfg, SetUser(cfg, u, s, TriV(val)))[s].tri
  }

  /** The outcome of asking for `val` under a visibility and a select value; `up` promotes m to y. */
  function Outcome(val: Tri, vis: Tri, rev: Tri, up: bool): Tri {
    var v := Max(Min(val, vis), rev);
    if v == 1 && up then 2 else v
  }

  lemma {:induction false} ValueAfterSetIs(cfg: Config, u: User, s: nat, val: Tri)
    requires WellFormed(cfg) && ValidUser(cfg, u) && TypedUser(cfg, u) && s < |cfg.items|
    requires cfg.At(s).Symbol? && cfg.At(s).choice.None? && Accepts(cfg.At(s).typ, TriV(val))
    requires Values(cfg, u)[s].vis > 0
    ensures var env := Values(cfg, u);
            ValueAfterSet(cfg, u, s, val)
            == Outcome(val, env[s].vis, ExprValue(cfg, env, cfg.At(s).revDep), PromotesM(cfg, env, s))
  {
    SetUserValid(cfg, u, s, TriV(val));
    var u' := SetUser(cfg, u, s, TriV(val));
    SetKeepsOwnBounds(cfg, u, u', s);
    ValuesAt(cfg, u', s);
  }

  ghost predicate Reachable(cfg: Config, u: User, s: nat, t: Tri)
    requires WellFormed(cfg) && ValidUser(cfg, u) && TypedUser(cfg, u) && s < |cfg.items| && cfg.At(s).Symbol?
  {
    exists val: Tri :: Accepts(cfg.At(s).typ, TriV(val)) && ValueAfterSet(cfg, u, s, val) == t
  }

  /** Visibility and select are both m, and the symbol is implied to y. */
  ghost predicate ImpliedPastVisibility(cfg: Config, env: Env, s: nat)
    requires cfg.At(s).Symbol?
  {
    ValAt(env, s).vis == 1 && ExprValue(cfg, env, cfg.At(s).revDep) == 1
    && ExprValue(cfg, env, cfg.At(s).weakRevDep) == 2
  }

  lemma {:induction false} ReachableIs(cfg: Config, u: User, s: nat, t: Tri)
    requires WellFormed(cfg) && ValidUser(cfg, u) && TypedUser(cfg, u) && s < |cfg.items|
    requires cfg.At(s).Symbol? && cfg.At(s).choice.None? && IsBoolTri(cfg.At(s).typ)
    requires Values(cfg, u)[s].vis > 0
    ensures var env := Values(cfg, u);
            var vis, rev, up := env[s].vis, ExprValue(cfg, env, cfg.At(s).revDep), PromotesM(cfg, env, s);
            Reachable(cfg, u, s, t) <==>
              Outcome(0, vis, rev, up) == t || Outcome(2, vis, rev, up) == t
              || (cfg.At(s).typ == Tristate && Outcome(1, vis, rev, up) == t)
  {
    ValueAfterSetIs(cfg, u, s, 0);
    ValueAfterSetIs(cfg, u, s, 2);
    if cfg.At(s).typ == Tristate { ValueAfterSetIs(cfg, u, s, 1); }
    forall val: Tri | Accepts(cfg.At(s).typ, TriV(val)) ensures val == 0 || val == 2 || val == 1 {}
    assert Accepts(cfg.At(s).typ, TriV(0)) && Accepts(cfg.At(s).typ, TriV(2));
  }

  /** In m visibility the symbol acts as a tristate, so only an imply of y promotes it. */
  lemma {:induction false} PromotionInM(cfg: Config, u: User, s: nat)
    requires WellFormed(cfg) && ValidUser(cfg, u) && s < |cfg.items| && cfg.At(s).Symbol? && cfg.At(s).choice.None?
    requires Values(cfg, u)[s].vis == 1
    ensures cfg.At(s).typ == Tristate
    ensures PromotesM(cfg, Values(cfg, u), s) == (ExprValue(cfg, Values(cfg, u), cfg.At(s).weakRevDep) == 2)
  {
    ValuesAt(cfg, u, s);
  }

  /**
    `assignable` lists exactly the values that setting the symbol can give it, unless visibility and
    select are both m and the symbol is implied to y.
    */
  lemma {:induction false} AssignableExact(cfg: Config, u: User, s: nat)
    requires WellFormed(cfg) && ValidUser(cfg, u) && TypedUser(cfg, u) && s < |cfg.items|
    requires cfg.At(s).Symbol? && cfg.At(s).choice.None? && IsBoolTri(cfg.At(s).typ)
    requires Values(cfg, u)[s].vis > 0
    ensures (forall t: Tri :: t in Assignable(cfg, Values(cfg, u), s) <==> Reachable(cfg, u, s, t))
            <==> !ImpliedPastVisibility(cfg, Values(cfg, u), s)
  {
    hide WellFormed, Values, TypedUser, ExprValue;
    var env := Values(cfg, u);
    if env[s].vis == 1 { PromotionInM(cfg, u, s); }
    if ImpliedPastVisibility(cfg, env, s) {
      ReachableIs(cfg, u, s, 1);
      assert Assignable(cfg, env, s) == [1];
    } else {
      forall t: Tri ensures t in Assignable(cfg, env, s) <==> Reachable(cfg, u, s, t) {
        ReachableIs(cfg, u, s, t);
      }
    }
  }

  /** n, m, y, MODULES = y, X = m which selects S, Y = y which implies S, and S with an m prompt. */
  function PastVisibilityConfig(): Config {
    var n, m, y := Ref(0), Ref(1), Ref(2);
    Config(
      [Const("n", Tristate, 0), Const("m", Tristate, 1), Const("y", Tristate, 2),
       Symbol("MODULES", Bool, [], [Default(y, y)], [], n, n, y, None, false),
       Symbol("X", Tristate, [], [Default(m, y)], [], n, n, y, None, false),
       Symbol("Y", Tristate, [], [Default(y, y)], [], n, n, y, None, false),
       Symbol("S", Tristate, [m], [], [], Ref(4), Ref(5), y, None, false)],
      3, [0, 0, 0, 1, 2, 2, 3])
  }

  const PAST_VISIBILITY_VALUES: Env :=
    [Val(0, 0, "n", None), Val(0, 1, "m", None), Val(0, 2, "y", None), Val(0, 2, "y", None),
     Val(0, 1, "m", None), Val(0, 2, "y", None), Val(1, 2, "y", None)]

  lemma {:induction false} PastVisibilityItem(i: nat)
    requires i < 7
    ensures ItemWellFormed(PastVisibilityConfig(), i)
  {
    if i < 3 {
      assert PastVisibilityConfig().At(i).Const?;
    } else if i == 6 {
      assert SymbolBelow(PastVisibilityConfig(), 6);
    } else {
      assert i == 3 || i == 4 || i == 5;
      assert SymbolBelow(PastVisibilityConfig(), i);
    }
  }

  lemma {:induction false} PastVisibilityWellFormed()
    ensures WellFormed(PastVisibilityConfig())
  {
    hide ItemWellFormed;
    forall i: nat | i < 7 ensures ItemWellFormed(PastVisibilityConfig(), i) { PastVisibilityItem(i); }
  }

  lemma {:induction false} PastVisibilitySolved(u: User)
    requires u == seq(7, _ => UNSET)
    ensures Solves(PastVisibilityConfig(), u, PAST_VISIBILITY_VALUES)
  {
    var cfg, env := PastVisibilityConfig(), PAST_VISIBILITY_VALUES;
    forall i: nat | i < 7 ensures env[i] == Equation(cfg, u, env, i) {
      assert i == 0 || i == 1 || i == 2 || i == 3 || i == 4 || i == 5 || i == 6;
      assert MaxValue(cfg, env, []) == 0;
    }
    assert env == Step(cfg, u, env);
  }

  /** The exception happens: here `assignable` is (m) but S is y whatever it is set to. */
  lemma {:induction false} AssignableNotExact()
    ensures WellFormed(PastVisibilityConfig())
    ensures var cfg := PastVisibilityConfig();
            var u: User := seq(7, _ => UNSET);
            ValidUser(cfg, u) && ImpliedPastVisibility(cfg, Values(cfg, u), 6)
            && Assignable(cfg, Values(cfg, u), 6) == [1] && Values(cfg, u)[6].tri == 2
  {
    hide WellFormed, Values;
    var u: User := seq(7, _ => UNSET);
    PastVisibilityWellFormed();
    PastVisibilitySolved(u);
    SolutionIs(PastVisibilityConfig(), u, PAST_VISIBILITY_VALUES);
  }
}
