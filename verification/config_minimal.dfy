/**
  The minimal configuration is minimal: its entries are exactly the symbols whose value depends on what
  the user set, but for ints and hexes whose default is clamped to the value they have.
  */
module ConfigMinimal {
  import opened Basics
  import opened Numbers
  import opened KconfigModel
  import opened KconfigEngine
  import opened KconfigProps
  import opened ConfigFile
  import opened ConfigRoundTrip

  // ---------------------------------------------------------------------------------------------
  // Plain symbols

  /** Taking back the user value of a symbol leaves everything below its own value as it was. */
  lemma {:induction false} UnsetAgrees(cfg: Config, u: User, i: nat)
    requires State(cfg, u) && i < |cfg.items| && cfg.At(i).Symbol?
    ensures var v := u[i := UNSET];
            ValidUser(cfg, v) && AgreeBelow(cfg, Values(cfg, u), Values(cfg, v), TriLevel(cfg, i))
  {
    hide Values;
    UnsetValid(cfg, u, i);
    UserAgreesBelow(cfg, u, u[i := UNSET], TriLevel(cfg, i));
  }

  /** A bool without its user value. */
  lemma {:induction false} UnsetBool(cfg: Config, u: User, i: nat)
    requires State(cfg, u) && i < |cfg.items| && cfg.At(i).Symbol? && cfg.At(i).typ == Bool && cfg.At(i).choice.None?
    ensures var v := u[i := UNSET];
      ValidUser(cfg, v) &&
      var env, env', it := Values(cfg, u), Values(cfg, v), cfg.At(i);
      env'[i].tri == (if env[i].vis == 0 then env[i].tri
                      else Max(Max(ExprValue(cfg, env, it.revDep), ExprValue(cfg, env, it.weakRevDep)), DefaultTri(cfg, env, it.defaults)))
  {
    hide Values, ExprValue, Visibility, WellFormed, MaxValue, AgreeBelow;
    var v, it, n := u[i := UNSET], cfg.At(i), TriLevel(cfg, i);
    UnsetAgrees(cfg, u, i);
    var env, env' := Values(cfg, u), Values(cfg, v);
    ValuesAt(cfg, u, i);
    ValuesAt(cfg, v, i);
    OwnAgree(cfg, env, env', n, i);
    assert MFreeItem(cfg, i);
    ValuesHoldConsts(cfg, u);
    if env[i].vis > 0 { VisibleDepsMet(cfg, u, i); }
    NotM(cfg, u, i);
    ExprNotM(cfg, u, it.revDep);
    ExprNotM(cfg, u, it.weakRevDep);
    DefaultNotM(cfg, u, it.defaults);
  }

  lemma {:induction false} VisibleDepsMet(cfg: Config, u: User, i: nat)
    requires State(cfg, u) && i < |cfg.items| && cfg.At(i).Symbol? && cfg.At(i).choice.None? && Values(cfg, u)[i].vis > 0
    ensures ExprValue(cfg, Values(cfg, u), cfg.At(i).directDep) > 0
  {
    hide Values, ExprValue, MaxValue;
    ValuesAt(cfg, u, i);
    ValuesHoldConsts(cfg, u);
    assert MFreeItem(cfg, i) && PromptsWithinDeps(cfg, i);
  }

  /** What a symbol reads of others when its value is settled. */
  lemma {:induction false} OwnAgree(cfg: Config, e1: Env, e2: Env, n: nat, i: nat)
    requires WellFormed(cfg) && i < |cfg.items| && cfg.At(i).Symbol? && n == TriLevel(cfg, i) && AgreeBelow(cfg, e1, e2, n)
    ensures var it := cfg.At(i);
      && ValAt(e1, i).vis == ValAt(e2, i).vis
      && ExprValue(cfg, e1, it.revDep) == ExprValue(cfg, e2, it.revDep)
      && ExprValue(cfg, e1, it.weakRevDep) == ExprValue(cfg, e2, it.weakRevDep)
      && ExprValue(cfg, e1, it.directDep) == ExprValue(cfg, e2, it.directDep)
      && DefaultTri(cfg, e1, it.defaults) == DefaultTri(cfg, e2, it.defaults)
  {
    hide ExprValue;
    var it := cfg.At(i);
    assert ItemWellFormed(cfg, i) && AgreeAt(cfg, e1, e2, n, i);
    ExprAgree(cfg, e1, e2, n, i, it.revDep);
    ExprAgree(cfg, e1, e2, n, i, it.weakRevDep);
    ExprAgree(cfg, e1, e2, n, i, it.directDep);
    ActiveDefaultAgree(cfg, e1, e2, n, i, it.defaults);
    var d := ActiveDefault(cfg, e1, it.defaults);
    if d.Some? {
      assert d.value in it.defaults;
      ExprAgree(cfg, e1, e2, n, i, d.value.value);
      ExprAgree(cfg, e1, e2, n, i, d.value.cond);
    }
  }

  lemma {:induction false} UnsetAgreesText(cfg: Config, u: User, i: nat)
    requires State(cfg, u) && i < |cfg.items| && cfg.At(i).Symbol? && !IsBoolTri(cfg.At(i).typ)
    ensures var v := u[i := UNSET];
            ValidUser(cfg, v) && AgreeBelow(cfg, Values(cfg, u), Values(cfg, v), StrLevel(cfg, i))
  {
    hide Values, WellFormed, TriValue, Visibility, Selection, StrValue;
    var v, m, n := u[i := UNSET], TriLevel(cfg, i), StrLevel(cfg, i);
    UnsetAgrees(cfg, u, i);
    var e1, e2 := Values(cfg, u), Values(cfg, v);
    forall j: nat ensures AgreeAt(cfg, e1, e2, n, j) {
      assert AgreeAt(cfg, e1, e2, m, j);
      if j < |cfg.items| {
        ValuesAt(cfg, u, j);
        ValuesAt(cfg, v, j);
        if TriLevel(cfg, j) == m {
          TriAgree(cfg, u, e1, e2, m, j);
          SameUserTri(cfg, u, v, e2, i, j);
        }
      }
    }
  }

  lemma {:induction false} SameUserTri(cfg: Config, u: User, v: User, env: Env, i: nat, j: nat)
    requires |u| == |v| && (forall k :: 0 <= k < |u| && k != i ==> u[k] == v[k]) && cfg.At(i).Symbol? && !IsBoolTri(cfg.At(i).typ)
    ensures TriValue(cfg, u, env, j) == TriValue(cfg, v, env, j)
  {
  }

  /** A text, int or hex symbol without its user value. */
  lemma {:induction false} UnsetText(cfg: Config, u: User, i: nat)
    requires State(cfg, u) && i < |cfg.items| && cfg.At(i).Symbol? && !IsBoolTri(cfg.At(i).typ) && cfg.At(i).typ != Unknown
    ensures var v := u[i := UNSET];
      ValidUser(cfg, v) &&
      var env, env', it := Values(cfg, u), Values(cfg, v), cfg.At(i);
      var d := DefaultStr(cfg, env, it.defaults);
      && env'[i].str == (if IsIntHex(it.typ) then Clamp(it.typ, Bounds(cfg, env, it), d) else d)
      && (env[i].vis == 0 ==> env'[i].str == env[i].str)
  {
    hide Values, WellFormed, DefaultStr, Bounds, Clamp, Visibility, TriValue, AgreeBelow;
    var v, n := u[i := UNSET], StrLevel(cfg, i);
    UnsetAgreesText(cfg, u, i);
    var env, env' := Values(cfg, u), Values(cfg, v);
    ValuesAt(cfg, u, i);
    ValuesAt(cfg, v, i);
    DefaultStrAgree(cfg, env, env', n, i);
    BoundsAgree(cfg, env, env', n, i);
    assert env[i].vis == env'[i].vis by { VisAgrees(cfg, env, env', n, i); }
  }

  lemma {:induction false} VisAgrees(cfg: Config, e1: Env, e2: Env, n: nat, i: nat)
    requires AgreeBelow(cfg, e1, e2, n) && VisLevel(cfg, i) < n
    ensures ValAt(e1, i).vis == ValAt(e2, i).vis
  {
    assert AgreeAt(cfg, e1, e2, n, i);
  }

  /** The default of an int or hex is outside the range, and the end of the range is the value anyway. */
  ghost predicate ClampedAnyway(cfg: Config, u: User, i: nat)
    requires WellFormed(cfg) && ValidUser(cfg, u) && i < |cfg.items| && cfg.At(i).Symbol? && ValidUser(cfg, u[i := UNSET])
  {
    var env, it := Values(cfg, u), cfg.At(i);
    && IsIntHex(it.typ) && env[i].vis > 0 && Values(cfg, u[i := UNSET])[i].str == env[i].str
    && !InBounds(Bounds(cfg, env, it), NumOrZero(DefaultStr(cfg, env, it.defaults), Base(it.typ)))
  }

  /**
    A plain symbol has an entry exactly if its value would be another without what the user set, or if
    its default is clamped to its value.
    */
  lemma {:induction false} MinimalPlain(cfg: Config, u: User, i: nat)
    requires State(cfg, u) && i < |cfg.items| && cfg.At(i).Symbol? && cfg.At(i).choice.None? && cfg.At(i).typ != Unknown
    ensures ValidUser(cfg, u[i := UNSET])
    ensures Entry(i) in MinOuts(cfg, Values(cfg, u), 0) <==>
            Values(cfg, u[i := UNSET])[i].str != Values(cfg, u)[i].str || ClampedAnyway(cfg, u, i)
  {
    hide Values, MinOuts, WellFormed, Clamp, Bounds, DefaultStr, DefaultTri, ExprValue, StrValue;
    UnsetValid(cfg, u, i);
    MinOutsAre(cfg, Values(cfg, u), 0);
    assert MFreeItem(cfg, i);
    if cfg.At(i).typ == Bool { MinimalBool(cfg, u, i); } else { MinimalText(cfg, u, i); }
  }

  lemma {:induction false} MinimalBool(cfg: Config, u: User, i: nat)
    requires State(cfg, u) && i < |cfg.items| && cfg.At(i).Symbol? && cfg.At(i).choice.None? && IsBoolTri(cfg.At(i).typ)
    ensures ValidUser(cfg, u[i := UNSET])
    ensures var env := Values(cfg, u);
            InMinConfig(cfg, env, i) && WrittenToConf(cfg, env, i) <==> Values(cfg, u[i := UNSET])[i].str != env[i].str
  {
    hide Values, WellFormed, ExprValue, DefaultTri, Visibility;
    var env, v, it := Values(cfg, u), u[i := UNSET], cfg.At(i);
    assert MFreeItem(cfg, i);
    UnsetBool(cfg, u, i);
    ValuesAt(cfg, u, i);
    ValuesAt(cfg, v, i);
    NotM(cfg, u, i);
    ExprNotM(cfg, u, it.revDep);
    ExprNotM(cfg, u, it.weakRevDep);
    DefaultNotM(cfg, u, it.defaults);
    if env[i].tri != Values(cfg, v)[i].tri && env[i].str == Values(cfg, v)[i].str {
      TriToStrInjective(env[i].tri, Values(cfg, v)[i].tri);
    }
    var val := Max(Max(ExprValue(cfg, env, it.revDep), ExprValue(cfg, env, it.weakRevDep)), DefaultTri(cfg, env, it.defaults));
    if env[i].str == TriToStr(val) { TriToStrInjective(env[i].tri, val); }
  }

  lemma {:induction false} MinimalText(cfg: Config, u: User, i: nat)
    requires State(cfg, u) && i < |cfg.items| && cfg.At(i).Symbol? && !IsBoolTri(cfg.At(i).typ) && cfg.At(i).typ != Unknown
    ensures ValidUser(cfg, u[i := UNSET])
    ensures var env := Values(cfg, u);
            InMinConfig(cfg, env, i) && WrittenToConf(cfg, env, i) <==>
            Values(cfg, u[i := UNSET])[i].str != env[i].str || ClampedAnyway(cfg, u, i)
  {
    hide Values, WellFormed, ExprValue, DefaultStr, Bounds, Clamp, Visibility, ParseInt;
    var env, it := Values(cfg, u), cfg.At(i);
    assert MFreeItem(cfg, i);
    UnsetText(cfg, u, i);
    ValuesAt(cfg, u, i);
    RevIsN(cfg, u, i);
    if IsIntHex(it.typ) { ClampInBounds(it.typ, Bounds(cfg, env, it), DefaultStr(cfg, env, it.defaults)); }
  }

  lemma {:induction false} RevIsN(cfg: Config, u: User, i: nat)
    requires State(cfg, u) && i < |cfg.items| && cfg.At(i).Symbol? && !IsBoolTri(cfg.At(i).typ)
    ensures ExprValue(cfg, Values(cfg, u), cfg.At(i).revDep) == 0 && cfg.At(i).choice.None?
  {
    assert MFreeItem(cfg, i) && ItemWellFormed(cfg, i);
    ValuesAt(cfg, u, cfg.At(i).revDep.item);
  }

  // ---------------------------------------------------------------------------------------------
  // Choice symbols

  /** Without the user selection the choice is left to its defaults. */
  lemma {:induction false} Unselected(cfg: Config, u: User, c: nat)
    requires State(cfg, u) && c < |cfg.items| && cfg.At(c).Choice?
    ensures var v := u[c := u[c].(sel := None)];
      ValidUser(cfg, v) &&
      var env := Values(cfg, u);
      Values(cfg, v)[c].sel == if env[c].tri == 2 then SelectionFromDefaults(cfg, env, c) else None
  {
    hide Values, WellFormed, FirstChoiceDefault, FirstVisible, Visibility, Mode, AgreeBelow;
    var v, n := u[c := u[c].(sel := None)], SelLevel(cfg, c);
    var e1, e2 := Values(cfg, u), Values(cfg, v);
    UserAgreesBelow(cfg, u, v, n);
    ValuesAt(cfg, v, c);
    PicksAgree(cfg, e1, e2, n, c);
  }

  lemma {:induction false} PicksAgree(cfg: Config, e1: Env, e2: Env, n: nat, c: nat)
    requires WellFormed(cfg) && c < |cfg.items| && cfg.At(c).Choice? && n == SelLevel(cfg, c) && AgreeBelow(cfg, e1, e2, n)
    ensures ValAt(e1, c).tri == ValAt(e2, c).tri && SelectionFromDefaults(cfg, e1, c) == SelectionFromDefaults(cfg, e2, c)
  {
    assert ItemWellFormed(cfg, c) && AgreeAt(cfg, e1, e2, n, c);
    FirstChoiceDefaultAgree(cfg, e1, e2, n, c, cfg.At(c).choiceDefaults);
    FirstVisibleAgree(cfg, e1, e2, n, c, cfg.At(c).syms);
  }

  /** A choice symbol has an entry exactly if it is selected, and would not be without the user selection. */
  lemma {:induction false} MinimalChoice(cfg: Config, u: User, s: nat)
    requires State(cfg, u) && s < |cfg.items| && cfg.At(s).Symbol? && cfg.At(s).choice.Some?
    ensures var c := cfg.At(s).choice.value;
      c < |cfg.items| &&
      var v := u[c := u[c].(sel := None)];
      && ValidUser(cfg, v)
      && (Entry(s) in MinOuts(cfg, Values(cfg, u), 0) <==>
          Values(cfg, u)[c].sel == Some(s) && Values(cfg, v)[c].sel != Some(s))
  {
    hide Values, MinOuts, WellFormed, ExprValue, SelectionFromDefaults;
    var env, c := Values(cfg, u), cfg.At(s).choice.value;
    ChoiceOf(cfg, s);
    MinOutsAre(cfg, env, 0);
    Unselected(cfg, u, c);
    ValuesAt(cfg, u, s);
    NotM(cfg, u, s);
    NotM(cfg, u, c);
    ChoiceSymValue(cfg, u, c, s);
    SelectionIs(cfg, u, c);
  }

  lemma {:induction false} ChoiceOf(cfg: Config, s: nat)
    requires WellFormed(cfg) && MFree(cfg) && s < |cfg.items| && cfg.At(s).Symbol? && cfg.At(s).choice.Some?
    ensures var c := cfg.At(s).choice.value;
            c < |cfg.items| && cfg.At(c).Choice? && s in cfg.At(c).syms && !cfg.At(c).optional && cfg.At(s).typ == Bool
  {
    assert ItemWellFormed(cfg, s) && MFreeItem(cfg, s);
    assert MFreeItem(cfg, cfg.At(s).choice.value);
  }

  // ---------------------------------------------------------------------------------------------
  // A default outside the range

  /** An int A with the default 5 and the range 10 to 20. */
  function ClampedConfig(): Config {
    var n, y := Ref(0), Ref(1);
    Config([Const("n", Bool, 0), Const("y", Bool, 2), Const("5", Unknown, 0), Const("10", Unknown, 0), Const("20", Unknown, 0),
            Symbol("A", Int, [y], [Default(Ref(2), y)], [Range(3, 4, y)], n, n, y, None, false)],
           0, [0, 0, 0, 0, 0, 1])
  }

  const CLAMPED_USER: User := [UNSET, UNSET, UNSET, UNSET, UNSET, UNSET]

  const CLAMPED_VALUES: Env :=
    [Val(0, 0, "n", None), Val(0, 2, "y", None), Val(0, 0, "5", None), Val(0, 0, "10", None), Val(0, 0, "20", None),
     Val(2, 0, "10", None)]

  lemma {:induction false} ClampedState()
    ensures State(ClampedConfig(), CLAMPED_USER)
  {
    var cfg := ClampedConfig();
    assert SymbolBelow(cfg, 5);
    forall i: nat | i < 6 ensures ItemWellFormed(cfg, i) && MFreeItem(cfg, i) { if i < 5 { assert cfg.At(i).Const?; } }
  }

  lemma {:induction false} ClampedNumbers()
    ensures NumOrZero("5", 10) == 5 && NumOrZero("10", 10) == 10 && NumOrZero("20", 10) == 20 && FormatInt(10, 10) == "10"
  {
    assert "10"[..1] == "1" && "20"[..1] == "2";
    assert ParseDigits("1", 10) == Some(1) && ParseDigits("2", 10) == Some(2);
    assert Digits(1, 10) == "1" && Digits(10, 10) == "1" + "0";
  }

  lemma {:induction false} ClampedSolved()
    ensures Solves(ClampedConfig(), CLAMPED_USER, CLAMPED_VALUES)
  {
    var cfg, env := ClampedConfig(), CLAMPED_VALUES;
    assert MaxValue(cfg, env, []) == 0 && [Ref(1)][..0] == [];
    assert MaxValue(cfg, env, [Ref(1)]) == 2;
    ClampedNumbers();
    hide NumOrZero, FormatInt;
    forall i: nat | i < 6 ensures env[i] == Equation(cfg, CLAMPED_USER, env, i) {
      if i < 5 { assert cfg.At(i).Const?; }
    }
    assert env == Step(cfg, CLAMPED_USER, env);
  }

  lemma {:induction false} ClampedDiffers()
    ensures InMinConfig(ClampedConfig(), CLAMPED_VALUES, 5) && WrittenToConf(ClampedConfig(), CLAMPED_VALUES, 5)
  {
    assert "5"[0] != "10"[0];
  }

  /** Nothing is set, A is 10 all the same, and still the minimal configuration has an entry for it. */
  lemma {:induction false} ClampedIsWritten()
    ensures State(ClampedConfig(), CLAMPED_USER) && Values(ClampedConfig(), CLAMPED_USER)[5].str == "10"
    ensures Entry(5) in MinOuts(ClampedConfig(), Values(ClampedConfig(), CLAMPED_USER), 0)
  {
    hide Values, Solves, WellFormed, MFree, TypedUser, MinOuts, InMinConfig, WrittenToConf;
    ClampedState();
    ClampedSolved();
    SolutionIs(ClampedConfig(), CLAMPED_USER, CLAMPED_VALUES);
    ClampedDiffers();
    MinOutsAre(ClampedConfig(), CLAMPED_VALUES, 0);
  }
}
