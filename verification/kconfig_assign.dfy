/** What assignments store, and which values and modes can be reached by them. */
module KconfigAssign {
  import opened Basics
  import opened Numbers
  import opened KconfigModel
  import opened KconfigEngine
  import opened KconfigProps

  // ---------------------------------------------------------------------------------------------
  // What is stored

  /** "n", "m" and "y" mean the values; m is for tristates only. A choice symbol set to y becomes the user selection. */
  lemma {:induction false} SetStoresTri(cfg: Config, u: User, i: nat, t: Tri)
    requires WellFormed(cfg) && |u| == |cfg.items| && i < |u| && cfg.At(i).Symbol? && IsBoolTri(cfg.At(i).typ)
    ensures var v, choice := SetUser(cfg, u, i, StrV(TriToStr(t))), cfg.At(i).choice;
      && v == SetUser(cfg, u, i, TriV(t)) && |v| == |u|
      && (cfg.At(i).typ == Bool && t == 1 ==> v == u)
      && (cfg.At(i).typ == Tristate || t != 1 ==>
            && v[i] == UserValue(Some(t), None, None)
            && (forall k :: 0 <= k < |u| && k != i && choice != Some(k) ==> v[k] == u[k])
            && (choice.Some? ==>
                  var c := choice.value;
                  c < |u| && v[c] == u[c].(sel := if t == 2 then Some(i) else u[c].sel)))
  {
    assert ItemWellFormed(cfg, i);
    assert "n" != "m" && "n" != "y" && "m" != "y" by { assert "n"[0] == 'n' && "m"[0] == 'm' && "y"[0] == 'y'; }
  }

  /** Text is stored as it is: any text in strings and keys, decimal in ints, non-negative hexadecimal in hexes. */
  lemma {:induction false} SetStoresText(cfg: Config, u: User, i: nat, s: string)
    requires |u| == |cfg.items| && i < |u| && cfg.At(i).Symbol? && !IsBoolTri(cfg.At(i).typ)
    ensures var v, typ := SetUser(cfg, u, i, StrV(s)), cfg.At(i).typ;
      var fits := match typ
        case Int => ParseInt(s, 10).Some?
        case Hex => ParseInt(s, 16).Some? && ParseInt(s, 16).value >= 0
        case Unknown => false
        case _ => true;
      if fits && cfg.At(i).choice.None? then v == u[i := UserValue(None, Some(s), None)] else !fits ==> v == u
  {
  }

  // ---------------------------------------------------------------------------------------------
  // Modes of choices

  /** Mode `t` results from setting the choice to some mode that its type admits. */
  ghost predicate ModeReachable(cfg: Config, u: User, c: nat, t: Tri)
    requires WellFormed(cfg) && ValidUser(cfg, u) && TypedUser(cfg, u) && c < |cfg.items| && cfg.At(c).Choice?
  {
    exists val: Tri :: Accepts(cfg.At(c).typ, TriV(val)) && ModeAfterSet(cfg, u, c, val) == t
  }

  ghost function ModeAfterSet(cfg: Config, u: User, c: nat, val: Tri): Tri
    requires WellFormed(cfg) && ValidUser(cfg, u) && TypedUser(cfg, u) && c < |cfg.items| && cfg.At(c).Choice?
  {
    SetModeValid(cfg, u, c, TriV(val));
    Values(cfg, SetMode(cfg, u, c, TriV(val)))[c].tri
  }

  /** Within visibility, at least m unless the choice is optional, y for m if it cannot be m. */
  lemma {:induction false} ModeAfterSetIs(cfg: Config, u: User, c: nat, val: Tri)
    requires WellFormed(cfg) && ValidUser(cfg, u) && TypedUser(cfg, u) && c < |cfg.items| && cfg.At(c).Choice?
    requires IsBoolTri(cfg.At(c).typ) && Accepts(cfg.At(c).typ, TriV(val))
    ensures var env, it := Values(cfg, u), cfg.At(c);
      var mode := Min(if it.optional || val > 0 then val else 1, env[c].vis);
      ModeAfterSet(cfg, u, c, val) == if mode == 1 && !ActsTristate(cfg, env, c) then 2 else mode
  {
    hide Values, WellFormed, Visibility, AgreeBelow;
    SetModeValid(cfg, u, c, TriV(val));
    var v, n := SetMode(cfg, u, c, TriV(val)), TriLevel(cfg, c);
    UserAgreesBelow(cfg, u, v, n);
    ValuesAt(cfg, v, c);
    ModeInputsAgree(cfg, Values(cfg, u), Values(cfg, v), c);
  }

  lemma {:induction false} ModeInputsAgree(cfg: Config, e1: Env, e2: Env, c: nat)
    requires WellFormed(cfg) && c < |cfg.items| && cfg.At(c).Choice? && AgreeBelow(cfg, e1, e2, TriLevel(cfg, c))
    ensures ValAt(e1, c).vis == ValAt(e2, c).vis && ActsTristate(cfg, e1, c) == ActsTristate(cfg, e2, c)
  {
    assert ItemWellFormed(cfg, c);
    assert AgreeAt(cfg, e1, e2, TriLevel(cfg, c), c) && AgreeAt(cfg, e1, e2, TriLevel(cfg, c), cfg.modules);
  }

  /** The `assignable` modes of a choice are exactly the modes that setting it can give, none if it is invisible. */
  lemma {:induction false} ChoiceAssignableExact(cfg: Config, u: User, c: nat)
    requires WellFormed(cfg) && ValidUser(cfg, u) && TypedUser(cfg, u) && c < |cfg.items| && cfg.At(c).Choice?
    requires IsBoolTri(cfg.At(c).typ)
    ensures var env := Values(cfg, u);
      if env[c].vis == 0 then Assignable(cfg, env, c) == []
      else forall t: Tri :: t in Assignable(cfg, env, c) <==> ModeReachable(cfg, u, c, t)
  {
    hide Values, WellFormed, Visibility, TypedUser, ModeAfterSet;
    var env, typ := Values(cfg, u), cfg.At(c).typ;
    VisIsM(cfg, u, c);
    assert Accepts(typ, TriV(0)) && Accepts(typ, TriV(2));
    ModeAfterSetIs(cfg, u, c, 0);
    ModeAfterSetIs(cfg, u, c, 2);
    if typ == Tristate { ModeAfterSetIs(cfg, u, c, 1); }
    if env[c].vis > 0 {
      forall t: Tri ensures t in Assignable(cfg, env, c) <==> ModeReachable(cfg, u, c, t) {
        assert ModeReachable(cfg, u, c, t) <==>
               ModeAfterSet(cfg, u, c, 0) == t || ModeAfterSet(cfg, u, c, 2) == t
               || (typ == Tristate && ModeAfterSet(cfg, u, c, 1) == t);
      }
    }
  }

  lemma {:induction false} VisIsM(cfg: Config, u: User, c: nat)
    requires WellFormed(cfg) && ValidUser(cfg, u) && c < |cfg.items| && cfg.At(c).Choice?
    ensures Values(cfg, u)[c].vis == 1 ==> ActsTristate(cfg, Values(cfg, u), c)
  {
    ValuesAt(cfg, u, c);
  }

  // ---------------------------------------------------------------------------------------------
  // Symbols of a choice

  /** Setting a choice symbol that is visible in y mode to y selects it. */
  lemma {:induction false} SettingSelects(cfg: Config, u: User, s: nat)
    requires WellFormed(cfg) && ValidUser(cfg, u) && TypedUser(cfg, u) && s < |cfg.items|
    requires cfg.At(s).Symbol? && cfg.At(s).choice.Some? && IsBoolTri(cfg.At(s).typ)
    requires ValAt(Values(cfg, u), cfg.At(s).choice.value).tri == 2 && Values(cfg, u)[s].vis == 2
    ensures var v := SetUser(cfg, u, s, TriV(2));
      && ValidUser(cfg, v) && Values(cfg, v)[s].tri == 2
      && forall k :: k in cfg.At(cfg.At(s).choice.value).syms && k != s ==> ValAt(Values(cfg, v), k).tri == 0
  {
    hide Values, WellFormed, TypedUser, Visibility, Mode;
    var v := SetUser(cfg, u, s, TriV(2));
    SetUserValid(cfg, u, s, TriV(2));
    var c := cfg.At(s).choice.value;
    SetInChoice(cfg, u, s);
    ChoiceOfSymbol(cfg, s);
    ValuesAt(cfg, v, s);
    ValuesAt(cfg, v, c);
    forall k | k in cfg.At(c).syms && k != s ensures ValAt(Values(cfg, v), k).tri == 0 { ChoiceSymValue(cfg, v, c, k); }
  }

  lemma {:induction false} ChoiceOfSymbol(cfg: Config, s: nat)
    requires WellFormed(cfg) && s < |cfg.items| && cfg.At(s).Symbol? && cfg.At(s).choice.Some?
    ensures var c := cfg.At(s).choice.value; c < |cfg.items| && cfg.At(c).Choice? && s in cfg.At(c).syms
    ensures var c := cfg.At(s).choice.value; cfg.Rank(c) == cfg.Rank(s)
  {
    assert ItemWellFormed(cfg, s);
  }

  /** Setting a choice symbol changes neither the mode of its choice nor its visibility. */
  lemma {:induction false} SetInChoice(cfg: Config, u: User, s: nat)
    requires WellFormed(cfg) && ValidUser(cfg, u) && TypedUser(cfg, u) && s < |cfg.items|
    requires cfg.At(s).Symbol? && cfg.At(s).choice.Some? && IsBoolTri(cfg.At(s).typ)
    ensures var v, c := SetUser(cfg, u, s, TriV(2)), cfg.At(s).choice.value;
      && ValidUser(cfg, v) && c < |cfg.items| && Values(cfg, v)[c].tri == Values(cfg, u)[c].tri
      && Values(cfg, v)[s].vis == Values(cfg, u)[s].vis && v[c].sel == Some(s)
  {
    hide Values, WellFormed, TypedUser, AgreeBelow;
    var v, c := SetUser(cfg, u, s, TriV(2)), cfg.At(s).choice.value;
    SetUserValid(cfg, u, s, TriV(2));
    ChoiceOfSymbol(cfg, s);
    UserAgreesBelow(cfg, u, v, SelLevel(cfg, c));
    InChoiceAgree(cfg, Values(cfg, u), Values(cfg, v), s, c);
  }

  lemma {:induction false} InChoiceAgree(cfg: Config, e1: Env, e2: Env, s: nat, c: nat)
    requires AgreeBelow(cfg, e1, e2, SelLevel(cfg, c)) && cfg.At(c).Choice? && cfg.At(s).Symbol? && cfg.Rank(c) == cfg.Rank(s)
    ensures ValAt(e1, c).tri == ValAt(e2, c).tri && ValAt(e1, s).vis == ValAt(e2, s).vis
  {
    assert AgreeAt(cfg, e1, e2, SelLevel(cfg, c), c) && AgreeAt(cfg, e1, e2, SelLevel(cfg, c), s);
  }
}
