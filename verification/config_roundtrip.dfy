/**
  Loading what was written changes no value. The old values solve the equations under the reloaded
  user values, and solutions are unique.
  */
module ConfigRoundTrip {
  import opened Basics
  import opened Numbers
  import opened KconfigModel
  import opened KconfigEngine
  import opened KconfigProps
  import opened ConfigText
  import opened ConfigFile

  predicate IsConstN(cfg: Config, e: Expr) {
    e.Ref? && cfg.At(e.item).Const? && cfg.At(e.item).val == 0
  }

  predicate ConstsHold(cfg: Config, env: Env) {
    forall i :: 0 <= i < |cfg.items| && cfg.At(i).Const? ==> ValAt(env, i).tri == cfg.At(i).val
  }

  /** A symbol with a visible prompt has its dependencies met, as propagating the dependencies ensures. */
  ghost predicate PromptsWithinDeps(cfg: Config, i: nat)
    requires cfg.At(i).Symbol?
  {
    forall env: Env :: ConstsHold(cfg, env) && MaxValue(cfg, env, cfg.At(i).prompts) > 0 ==>
      ExprValue(cfg, env, cfg.At(i).directDep) > 0
  }

  lemma {:induction false} ValuesHoldConsts(cfg: Config, u: User)
    requires WellFormed(cfg) && ValidUser(cfg, u)
    ensures ConstsHold(cfg, Values(cfg, u))
  {
    forall i | 0 <= i < |cfg.items| && cfg.At(i).Const? ensures ValAt(Values(cfg, u), i).tri == cfg.At(i).val {
      ValuesAt(cfg, u, i);
    }
  }

  /**
    No tristates: bool choices that are not optional, no literal m, selects and implies only on bools,
    prompt conditions that include the symbol's dependencies, and no environment symbols.
    */
  ghost predicate MFreeItem(cfg: Config, i: nat) {
    match cfg.At(i)
    case Const(_, _, val) => val != 1
    case Choice(typ, _, _, _, optional) => typ == Bool && !optional
    case Symbol(_, typ, _, _, _, rev, _, _, choice, hidden) =>
      && typ != Tristate && !hidden && PromptsWithinDeps(cfg, i)
      && (typ != Bool ==> IsConstN(cfg, rev) && choice.None?)
  }

  ghost predicate MFree(cfg: Config) {
    forall i :: 0 <= i < |cfg.items| ==> MFreeItem(cfg, i)
  }

  ghost predicate State(cfg: Config, u: User) {
    WellFormed(cfg) && MFree(cfg) && ValidUser(cfg, u) && TypedUser(cfg, u)
  }

  // ---------------------------------------------------------------------------------------------
  // Without tristates nothing is m

  lemma {:induction false} NotM(cfg: Config, u: User, i: nat)
    requires State(cfg, u)
    ensures ValAt(Values(cfg, u), i).tri != 1 && ValAt(Values(cfg, u), i).vis != 1
  {
    if i < |cfg.items| {
      ValuesAt(cfg, u, i);
      assert MFreeItem(cfg, i);
      assert ItemWellFormed(cfg, i);
    }
  }

  lemma {:induction false} ExprNotM(cfg: Config, u: User, e: Expr)
    requires State(cfg, u)
    ensures ExprValue(cfg, Values(cfg, u), e) != 1
  {
    match e
    case Ref(j) => NotM(cfg, u, j);
    case And(a, b) => ExprNotM(cfg, u, a); ExprNotM(cfg, u, b);
    case Or(a, b) => ExprNotM(cfg, u, a); ExprNotM(cfg, u, b);
    case Not(a) => ExprNotM(cfg, u, a);
    case Rel(_, _, _) =>
  }

  lemma {:induction false} DefaultNotM(cfg: Config, u: User, ds: seq<Default>)
    requires State(cfg, u)
    ensures DefaultTri(cfg, Values(cfg, u), ds) != 1
  {
    var d := ActiveDefault(cfg, Values(cfg, u), ds);
    if d.Some? { ExprNotM(cfg, u, d.value.value); ExprNotM(cfg, u, d.value.cond); }
  }

  // ---------------------------------------------------------------------------------------------
  // The user values after reloading a set of written entries

  const OFF := UserValue(Some(0), None, None)

  /** The user value an item has after loading a file with the entries `em`, those in `off` switched off later. */
  ghost function Reloaded(cfg: Config, env: Env, em: set<nat>, off: set<nat>, i: nat): UserValue {
    match cfg.At(i)
    case Const(_, _, _) => UNSET
    case Symbol(_, typ, _, _, _, _, _, _, _, _) =>
      if i in off then OFF
      else if i in em && Accepts(typ, EnvValue(cfg, env, i)) then UserOf(EnvValue(cfg, env, i), None)
      else UNSET
    case Choice(_, _, _, _, _) =>
      if ValAt(env, i).sel.Some? && ValAt(env, i).sel.value in em
      then UserValue(Some(2), None, ValAt(env, i).sel) else UNSET
  }

  /** What loading has done after the entries `done`, with the symbols `off` switched off since. */
  ghost predicate LoadedAt(cfg: Config, env: Env, done: set<nat>, off: set<nat>, st: Loading, i: nat)
    requires ValidLoading(cfg, st) && i < |cfg.items|
  {
    match cfg.At(i)
    case Const(_, _, _) => st.user[i] == UNSET
    case Symbol(_, typ, _, _, _, _, _, _, _, _) =>
      if i in off then typ == Bool && st.flags[i] && st.user[i] == OFF
      else if i in done && Accepts(typ, EnvValue(cfg, env, i))
      then st.flags[i] && st.user[i] == UserOf(EnvValue(cfg, env, i), None)
      else !st.flags[i]
    case Choice(_, _, _, _, _) =>
      st.user[i].str.None? &&
      if ValAt(env, i).sel.Some? && ValAt(env, i).sel.value in done
      then st.flags[i] && st.user[i] == UserValue(Some(2), None, ValAt(env, i).sel)
      else !st.flags[i]
  }

  ghost predicate Loaded(cfg: Config, env: Env, done: set<nat>, off: set<nat>, st: Loading) {
    ValidLoading(cfg, st) && forall i :: 0 <= i < |cfg.items| ==> LoadedAt(cfg, env, done, off, st, i)
  }

  lemma {:induction false} LoadedStart(cfg: Config, u: User)
    requires State(cfg, u)
    ensures Loaded(cfg, Values(cfg, u), {}, {}, Loading(u, seq(|u|, _ => false)))
  {
    var env, st := Values(cfg, u), Loading(u, seq(|u|, _ => false));
    forall i | 0 <= i < |cfg.items| ensures LoadedAt(cfg, env, {}, {}, st, i) {
      assert TypedAt(cfg, u, i);
    }
  }

  /** Assigning a symbol its value touches the symbol and, for y, its choice. */
  lemma {:induction false} AssignValueIs(cfg: Config, env: Env, st: Loading, s: nat)
    requires ValidLoading(cfg, st) && MFree(cfg) && s < |cfg.items| && cfg.At(s).Symbol?
    requires ValAt(env, s).tri != 1
    ensures var st', val, choice := AssignValue(cfg, env, st, s), EnvValue(cfg, env, s), cfg.At(s).choice;
      && (forall k :: 0 <= k < |cfg.items| && k != s && choice != Some(k) ==>
            st'.user[k] == st.user[k] && st'.flags[k] == st.flags[k])
      && (if Accepts(cfg.At(s).typ, val) then st'.flags[s] && st'.user[s] == UserOf(val, None)
          else st'.flags[s] == st.flags[s])
      && (choice.Some? ==>
            var c := choice.value;
            c < |cfg.items| &&
            if val == TriV(2) then st'.flags[c] && st'.user[c] == UserValue(Some(2), st.user[c].str, Some(s))
            else st'.flags[c] == st.flags[c] && st'.user[c] == st.user[c])
  {
    assert ItemWellFormed(cfg, s) && MFreeItem(cfg, s);
    var it := cfg.At(s);
    if it.choice.Some? { assert MFreeItem(cfg, it.choice.value); }
    if it.typ == Bool {
      var text := TriToStr(ValAt(env, s).tri);
      assert text == "n" || text == "y";
      assert Normal(Bool, StrV(text)) == EnvValue(cfg, env, s);
    }
  }

  lemma {:induction false} LoadedStep(cfg: Config, u: User, done: set<nat>, off: set<nat>, st: Loading, s: nat)
    requires State(cfg, u) && Loaded(cfg, Values(cfg, u), done, off, st)
    requires s < |cfg.items| && cfg.At(s).Symbol? && s !in done
    ensures Loaded(cfg, Values(cfg, u), done + {s}, off - {s}, AssignValue(cfg, Values(cfg, u), st, s))
  {
    hide Values;
    var env := Values(cfg, u);
    var st' := AssignValue(cfg, env, st, s);
    NotM(cfg, u, s);
    AssignValueIs(cfg, env, st, s);
    assert ItemWellFormed(cfg, s);
    forall i | 0 <= i < |cfg.items| ensures LoadedAt(cfg, env, done + {s}, off - {s}, st', i) {
      assert LoadedAt(cfg, env, done, off, st, i);
      if cfg.At(i).Choice? { LoadedChoice(cfg, u, done, off, st, s, i); }
    }
  }

  lemma {:induction false} LoadedChoice(cfg: Config, u: User, done: set<nat>, off: set<nat>, st: Loading, s: nat, c: nat)
    requires State(cfg, u) && Loaded(cfg, Values(cfg, u), done, off, st)
    requires s < |cfg.items| && cfg.At(s).Symbol? && s !in done && c < |cfg.items| && cfg.At(c).Choice?
    ensures LoadedAt(cfg, Values(cfg, u), done + {s}, off - {s}, AssignValue(cfg, Values(cfg, u), st, s), c)
  {
    var env := Values(cfg, u);
    NotM(cfg, u, s);
    AssignValueIs(cfg, env, st, s);
    assert LoadedAt(cfg, env, done, off, st, c);
    SelectionIs(cfg, u, c);
    if cfg.At(s).choice == Some(c) {
      assert ItemWellFormed(cfg, s) && MFreeItem(cfg, s);
      ChoiceSymValue(cfg, u, c, s);
    } else if env[c].sel == Some(s) {
      MemberLevel(cfg, c, s);
    }
  }

  /** The symbols switched off by comments and not assigned since. */
  ghost function OffStep(cfg: Config, prefix: string, off: set<nat>, o: Out): set<nat> {
    match o
    case Note(text) => if SwitchedOff(cfg, prefix, text).Some? then off + {SwitchedOff(cfg, prefix, text).value} else off
    case Entry(i) => off - {i}
  }

  ghost function OffAfter(cfg: Config, prefix: string, off: set<nat>, outs: seq<Out>): set<nat>
    decreases |outs|
  {
    if outs == [] then off else OffAfter(cfg, prefix, OffStep(cfg, prefix, off, outs[0]), outs[1..])
  }

  lemma {:induction false} OffConcat(cfg: Config, prefix: string, off: set<nat>, a: seq<Out>, b: seq<Out>)
    ensures OffAfter(cfg, prefix, off, a + b) == OffAfter(cfg, prefix, OffAfter(cfg, prefix, off, a), b)
    decreases |a|
  {
    if a == [] {
      assert a + b == b;
    } else {
      assert (a + b)[1..] == a[1..] + b;
      OffConcat(cfg, prefix, OffStep(cfg, prefix, off, a[0]), a[1..], b);
    }
  }

  /** Entries switch back on what they assign. */
  lemma {:induction false} OffEntries(cfg: Config, prefix: string, off: set<nat>, outs: seq<Out>, i: nat)
    requires forall o :: o in outs ==> o.Entry?
    ensures i in OffAfter(cfg, prefix, off, outs) <==> i in off && Entry(i) !in outs
    decreases |outs|
  {
    if outs != [] {
      assert outs[0] in outs && outs == [outs[0]] + outs[1..];
      OffEntries(cfg, prefix, OffStep(cfg, prefix, off, outs[0]), outs[1..], i);
    }
  }

  ghost predicate LineOff(cfg: Config, prefix: string, lines: seq<string>, i: nat, k: int) {
    0 <= k < |lines| && SwitchedOff(cfg, prefix, lines[k]) == Some(i)
  }

  /** A header switches off the symbols that its lines name. */
  lemma {:induction false} OffHeader(cfg: Config, prefix: string, off: set<nat>, lines: seq<string>, i: nat)
    ensures i in OffAfter(cfg, prefix, off, Notes(lines)) <==> i in off || exists k :: LineOff(cfg, prefix, lines, i, k)
    decreases |lines|
  {
    hide SwitchedOff;
    if lines != [] {
      assert Notes(lines)[1..] == Notes(lines[1..]);
      OffHeader(cfg, prefix, OffStep(cfg, prefix, off, Note(lines[0])), lines[1..], i);
      if SwitchedOff(cfg, prefix, lines[0]) == Some(i) { assert LineOff(cfg, prefix, lines, i, 0); }
      if k :| LineOff(cfg, prefix, lines[1..], i, k) { assert LineOff(cfg, prefix, lines, i, k + 1); }
      if k :| LineOff(cfg, prefix, lines, i, k) { assert k > 0 ==> LineOff(cfg, prefix, lines[1..], i, k - 1); }
    }
  }

  /** Putting a header in front changes neither the entries nor that they are distinct and readable. */
  lemma {:induction false} WithHeader(cfg: Config, prefix: string, env: Env, lines: seq<string>, outs: seq<Out>)
    requires IsHeader(lines) && Distinct(outs) && forall o :: o in outs ==> GoodOut(cfg, prefix, env, o)
    ensures var all := Notes(lines) + outs;
      && Distinct(all) && Entries(all) == Entries(outs) && (forall o :: o in all ==> GoodOut(cfg, prefix, env, o))
      && OutText(cfg, prefix, env, all) == HeaderText(lines) + OutText(cfg, prefix, env, outs)
  {
    hide OutText;
    var all := Notes(lines) + outs;
    forall o | o in all ensures GoodOut(cfg, prefix, env, o) {
      if o !in outs {
        var k :| 0 <= k < |lines| && o == Notes(lines)[k];
        assert lines[k] in lines;
      }
    }
    forall i ensures i in Entries(all) <==> i in Entries(outs) {
      assert Entry(i) in all <==> Entry(i) in outs;
      assert i in Entries(all) <==> Entry(i) in all;
      assert i in Entries(outs) <==> Entry(i) in outs;
    }
    OutTextConcat(cfg, prefix, env, Notes(lines), outs);
    NotesText(cfg, prefix, env, lines);
  }

  /** A comment that names a symbol switches it off and touches nothing else. */
  lemma {:induction false} LoadedNote(cfg: Config, prefix: string, env: Env, done: set<nat>, off: set<nat>, st: Loading, text: string)
    requires Loaded(cfg, env, done, off, st) && MFree(cfg)
    ensures Loaded(cfg, env, done, OffStep(cfg, prefix, off, Note(text)), ApplyNote(cfg, prefix, st, text))
  {
    hide SwitchedOff;
    var r := SwitchedOff(cfg, prefix, text);
    if r.Some? {
      var s := r.value;
      assert MFreeItem(cfg, s) && Normal(Bool, StrV("n")) == TriV(0);
      var st', off' := ApplyNote(cfg, prefix, st, text), OffStep(cfg, prefix, off, Note(text));
      forall i | 0 <= i < |cfg.items| ensures LoadedAt(cfg, env, done, off', st', i) {
        assert LoadedAt(cfg, env, done, off, st, i);
      }
    }
  }

  ghost function Entries(outs: seq<Out>): set<nat> { set o | o in outs && o.Entry? :: o.sym }

  lemma {:induction false} EntriesCons(o: Out, rest: seq<Out>)
    ensures Entries([o] + rest) == (if o.Entry? then {o.sym} else {}) + Entries(rest)
  {
    var all := [o] + rest;
    forall s | s in Entries(rest) ensures s in Entries(all) { assert Entry(s) in all; }
    if o.Entry? { assert o in all; }
  }

  lemma {:induction false} LoadedAll(cfg: Config, prefix: string, u: User, done: set<nat>, off: set<nat>, st: Loading, outs: seq<Out>)
    requires State(cfg, u) && Loaded(cfg, Values(cfg, u), done, off, st) && Distinct(outs)
    requires forall o :: o in outs && o.Entry? ==> o.sym !in done && o.sym < |cfg.items| && cfg.At(o.sym).Symbol?
    ensures Loaded(cfg, Values(cfg, u), done + Entries(outs), OffAfter(cfg, prefix, off, outs),
                   ApplyOuts(cfg, prefix, Values(cfg, u), st, outs))
    decreases |outs|
  {
    if outs == [] {
      assert done + Entries(outs) == done;
    } else {
      hide Values, Loaded, State;
      var o, rest, off' := outs[0], outs[1..], OffStep(cfg, prefix, off, outs[0]);
      var env := Values(cfg, u);
      assert outs == [o] + rest;
      assert forall r :: r in rest ==> r in outs;
      EntriesCons(o, rest);
      LoadedValid(cfg, u, done, off, st);
      if o.Entry? {
        assert o in outs;
        LoadedStep(cfg, u, done, off, st, o.sym);
        LoadedAll(cfg, prefix, u, done + {o.sym}, off', AssignValue(cfg, env, st, o.sym), rest);
        assert done + {o.sym} + Entries(rest) == done + Entries(outs);
      } else {
        LoadedNote(cfg, prefix, env, done, off, st, o.text);
        LoadedAll(cfg, prefix, u, done, off', ApplyNote(cfg, prefix, st, o.text), rest);
        assert done + Entries(rest) == done + Entries(outs);
      }
    }
  }

  lemma {:induction false} LoadedValid(cfg: Config, u: User, done: set<nat>, off: set<nat>, st: Loading)
    requires State(cfg, u) && Loaded(cfg, Values(cfg, u), done, off, st)
    ensures ValidLoading(cfg, st) && MFree(cfg) && ValidUser(cfg, u)
  {
  }

  /** Loading a written file gives exactly the entries as user values, whatever was set before, but for what comments switch off. */
  lemma {:induction false} LoadWritten(cfg: Config, prefix: string, u: User, outs: seq<Out>)
    requires State(cfg, u) && Named(cfg, prefix) && Distinct(outs)
    requires forall o :: o in outs ==> GoodOut(cfg, prefix, Values(cfg, u), o)
    ensures var env := Values(cfg, u);
            var u' := LoadReplace(cfg, prefix, u, OutText(cfg, prefix, env, outs));
            var off := OffAfter(cfg, prefix, {}, outs);
            |u'| == |cfg.items| && forall i :: 0 <= i < |u'| ==> u'[i] == Reloaded(cfg, env, Entries(outs), off, i)
  {
    hide Values, Named, OutText, OffAfter;
    var env, st := Values(cfg, u), Loading(u, seq(|u|, _ => false));
    LoadOutText(cfg, prefix, env, st, outs);
    LoadedStart(cfg, u);
    forall o | o in outs && o.Entry? ensures o.sym < |cfg.items| && cfg.At(o.sym).Symbol? {
      assert GoodOut(cfg, prefix, env, o);
    }
    LoadedAll(cfg, prefix, u, {}, {}, st, outs);
    assert {} + Entries(outs) == Entries(outs);
    var fin, off := ApplyOuts(cfg, prefix, env, st, outs), OffAfter(cfg, prefix, {}, outs);
    var u' := LoadReplace(cfg, prefix, u, OutText(cfg, prefix, env, outs));
    forall i | 0 <= i < |u'| ensures u'[i] == Reloaded(cfg, env, Entries(outs), off, i) {
      assert LoadedAt(cfg, env, Entries(outs), off, fin, i);
    }
  }

  // ---------------------------------------------------------------------------------------------
  // Which entries can be left out

  /** Leaving the symbol out of the file gives it the value it has. */
  ghost predicate Omittable(cfg: Config, env: Env, i: nat)
    requires cfg.At(i).Symbol?
  {
    ValAt(env, i).vis == 0 || cfg.At(i).choice.Some? || cfg.At(i).typ == Unknown
    || (cfg.At(i).typ == Bool && ExprValue(cfg, env, cfg.At(i).revDep) == 2)
    || ValAt(env, i).str == StrDefault(cfg, env, i)
  }

  /** The entries suffice to bring back every value. */
  ghost predicate Sufficient(cfg: Config, env: Env, em: set<nat>) {
    && (forall i :: 0 <= i < |cfg.items| && cfg.At(i).Symbol? && i !in em ==> Omittable(cfg, env, i))
    && (forall c :: 0 <= c < |cfg.items| && cfg.At(c).Choice? && ValAt(env, c).sel.Some? ==>
          ValAt(env, c).sel.value in em || SelectionFromDefaults(cfg, env, c) == ValAt(env, c).sel)
  }

  lemma {:induction false} ReloadedBool(cfg: Config, u: User, u': User, em: set<nat>, i: nat)
    requires State(cfg, u) && Sufficient(cfg, Values(cfg, u), em)
    requires i < |cfg.items| == |u'| && cfg.At(i).Symbol? && cfg.At(i).typ == Bool && cfg.At(i).choice.None?
    requires u'[i] == Reloaded(cfg, Values(cfg, u), em, {}, i)
    ensures PlainTri(cfg, u', Values(cfg, u), i) == Values(cfg, u)[i].tri
  {
    var env, it := Values(cfg, u), cfg.At(i);
    ValuesAt(cfg, u, i);
    assert MFreeItem(cfg, i);
    assert PromptsWithinDeps(cfg, i);
    ValuesHoldConsts(cfg, u);
    NotM(cfg, u, i);
    ExprNotM(cfg, u, it.revDep);
    ExprNotM(cfg, u, it.weakRevDep);
    DefaultNotM(cfg, u, it.defaults);
    if i !in em {
      assert Omittable(cfg, env, i);
      if env[i].str == StrDefault(cfg, env, i) && env[i].vis > 0 {
        var val := Max(Max(ExprValue(cfg, env, it.revDep), ExprValue(cfg, env, it.weakRevDep)),
                       DefaultTri(cfg, env, it.defaults));
        TriToStrInjective(env[i].tri, val);
      }
    }
  }

  lemma {:induction false} ClampInBounds(typ: SymType, bounds: Option<(int, int)>, s: string)
    requires IsIntHex(typ)
    ensures Clamp(typ, bounds, s) == s <==> InBounds(bounds, NumOrZero(s, Base(typ)))
  {
    if bounds.Some? {
      FormatRoundTrip(bounds.value.0, Base(typ));
      FormatRoundTrip(bounds.value.1, Base(typ));
    }
  }

  lemma {:induction false} ReloadedIntHex(cfg: Config, u: User, u': User, em: set<nat>, i: nat)
    requires State(cfg, u) && Sufficient(cfg, Values(cfg, u), em)
    requires i < |cfg.items| == |u'| && cfg.At(i).Symbol? && IsIntHex(cfg.At(i).typ)
    requires u'[i] == Reloaded(cfg, Values(cfg, u), em, {}, i)
    ensures IntHexStr(cfg, u', Values(cfg, u), i) == Values(cfg, u)[i].str
  {
    var env, it := Values(cfg, u), cfg.At(i);
    ValuesAt(cfg, u, i);
    assert MFreeItem(cfg, i) && TypedAt(cfg, u, i);
    var bounds, d := Bounds(cfg, env, it), DefaultStr(cfg, env, it.defaults);
    ClampInBounds(it.typ, bounds, d);
    if i in em && Accepts(it.typ, StrV(env[i].str)) {
      assert u'[i].str == Some(env[i].str);
    } else {
      assert u'[i].str.None?;
      if i !in em { assert Omittable(cfg, env, i); }
    }
  }

  lemma {:induction false} ReloadedSymbol(cfg: Config, u: User, u': User, em: set<nat>, i: nat)
    requires State(cfg, u) && Sufficient(cfg, Values(cfg, u), em)
    requires i < |cfg.items| == |u'| && cfg.At(i).Symbol?
    requires u'[i] == Reloaded(cfg, Values(cfg, u), em, {}, i)
    ensures Equation(cfg, u', Values(cfg, u), i) == Values(cfg, u)[i]
  {
    var env, it := Values(cfg, u), cfg.At(i);
    ValuesAt(cfg, u, i);
    assert MFreeItem(cfg, i) && ItemWellFormed(cfg, i);
    NotM(cfg, u, i);
    if it.typ == Bool {
      if it.choice.None? { ReloadedBool(cfg, u, u', em, i); }
    } else if IsIntHex(it.typ) {
      ReloadedIntHex(cfg, u, u', em, i);
    } else if it.typ != Unknown {
      if i !in em { assert Omittable(cfg, env, i); }
    }
  }

  lemma {:induction false} ReloadedChoice(cfg: Config, u: User, u': User, em: set<nat>, off: set<nat>, c: nat)
    requires State(cfg, u) && Sufficient(cfg, Values(cfg, u), em)
    requires c < |cfg.items| == |u'| && cfg.At(c).Choice?
    requires u'[c] == Reloaded(cfg, Values(cfg, u), em, off, c)
    ensures Equation(cfg, u', Values(cfg, u), c) == Values(cfg, u)[c]
  {
    var env := Values(cfg, u);
    ValuesAt(cfg, u, c);
    assert MFreeItem(cfg, c);
    NotM(cfg, u, c);
    SelectionIs(cfg, u, c);
  }

  /** A bool that the user can switch off: plain, visible, y, and not selected. */
  predicate Fragile(cfg: Config, env: Env, i: nat) {
    var it := cfg.At(i);
    it.Symbol? && it.typ == Bool && it.choice.None?
    && ValAt(env, i).vis > 0 && ValAt(env, i).tri == 2 && ExprValue(cfg, env, it.revDep) == 0
  }

  /** Switching a bool off changes its value exactly if it is fragile. */
  lemma {:induction false} SwitchedSymbol(cfg: Config, u: User, u': User, i: nat)
    requires State(cfg, u) && i < |cfg.items| == |u'| && cfg.At(i).Symbol? && cfg.At(i).typ == Bool && u'[i] == OFF
    ensures Equation(cfg, u', Values(cfg, u), i) == Values(cfg, u)[i] <==> !Fragile(cfg, Values(cfg, u), i)
  {
    hide ExprValue, Visibility, DefaultTri;
    ValuesAt(cfg, u, i);
    assert MFreeItem(cfg, i) && ItemWellFormed(cfg, i);
    NotM(cfg, u, i);
    ExprNotM(cfg, u, cfg.At(i).revDep);
  }

  /** All of these are bool symbols. */
  ghost predicate Bools(cfg: Config, ns: set<nat>) {
    forall i :: i in ns ==> i < |cfg.items| && cfg.At(i).Symbol? && cfg.At(i).typ == Bool
  }

  lemma {:induction false} OffAreBools(cfg: Config, prefix: string, off: set<nat>, outs: seq<Out>)
    requires MFree(cfg) && Bools(cfg, off)
    ensures Bools(cfg, OffAfter(cfg, prefix, off, outs))
    decreases |outs|
  {
    hide SwitchedOff;
    if outs != [] {
      var r := if outs[0].Note? then SwitchedOff(cfg, prefix, outs[0].text) else None;
      if r.Some? { assert MFreeItem(cfg, r.value); }
      OffAreBools(cfg, prefix, OffStep(cfg, prefix, off, outs[0]), outs[1..]);
    }
  }

  lemma {:induction false} ReloadedValid(cfg: Config, u: User, u': User, em: set<nat>, off: set<nat>)
    requires State(cfg, u) && |u'| == |cfg.items| && Bools(cfg, off)
    requires forall i :: 0 <= i < |u'| ==> u'[i] == Reloaded(cfg, Values(cfg, u), em, off, i)
    ensures ValidUser(cfg, u') && TypedUser(cfg, u')
  {
    forall i: nat ensures TypedAt(cfg, u', i) {
      if i < |u'| && cfg.At(i).Choice? { assert MFreeItem(cfg, i); }
      if i in off { assert Accepts(Bool, TriV(0)) && UserAt(u', i) == UserOf(TriV(0), None); }
    }
    forall c | 0 <= c < |u'| && cfg.At(c).Choice? && u'[c].sel.Some? ensures u'[c].sel.value in cfg.At(c).syms {
      SelectionIs(cfg, u, c);
    }
  }

  /**
    Reloading a sufficient set of entries changes no value, selection or visibility, exactly if no
    fragile symbol was switched off.
    */
  lemma {:induction false} ReloadKeepsExactly(cfg: Config, u: User, u': User, em: set<nat>, off: set<nat>)
    requires State(cfg, u) && Sufficient(cfg, Values(cfg, u), em) && |u'| == |cfg.items| && Bools(cfg, off)
    requires forall i :: 0 <= i < |u'| ==> u'[i] == Reloaded(cfg, Values(cfg, u), em, off, i)
    ensures ValidUser(cfg, u')
    ensures Values(cfg, u') == Values(cfg, u) <==> forall i :: i in off ==> !Fragile(cfg, Values(cfg, u), i)
  {
    hide Values, Fragile, Equation, Sufficient, MFree;
    var env := Values(cfg, u);
    ReloadedValid(cfg, u, u', em, off);
    if forall i :: i in off ==> !Fragile(cfg, env, i) {
      forall i | 0 <= i < |cfg.items| ensures env[i] == Step(cfg, u', env)[i] {
        if i in off { SwitchedSymbol(cfg, u, u', i); }
        else if cfg.At(i).Symbol? { ReloadedSymbol(cfg, u, u', em, i); }
        else if cfg.At(i).Choice? { ReloadedChoice(cfg, u, u', em, off, i); }
        else { ValuesAt(cfg, u, i); ConstEquation(cfg, u, u', env, i); }
      }
      SolutionIs(cfg, u', env);
    } else {
      var i :| i in off && Fragile(cfg, env, i);
      SwitchedSymbol(cfg, u, u', i);
      ValuesAt(cfg, u', i);
    }
  }

  lemma {:induction false} ConstEquation(cfg: Config, u: User, u': User, env: Env, i: nat)
    requires cfg.At(i).Const?
    ensures Equation(cfg, u, env, i) == Equation(cfg, u', env, i)
  {
  }

  // ---------------------------------------------------------------------------------------------
  // The minimal configuration

  lemma {:induction false} DigitsSolid(s: string, radix: nat)
    requires 2 <= radix <= 16 && ParseDigits(s, radix).Some?
    ensures s != "" && NoBreak(s) && !IsSpace(s[|s| - 1])
  {
    if |s| > 1 {
      DigitsSolid(s[..|s| - 1], radix);
      forall i | 0 <= i < |s| ensures !IsBreak(s[i]) {
        if i < |s| - 1 { assert s[i] == s[..|s| - 1][i]; }
      }
    }
  }

  lemma {:induction false} MagnitudeSolid(s: string, base: nat)
    requires (base == 10 || base == 16) && ParseMagnitude(s, base).Some?
    ensures s != "" && NoBreak(s) && !IsSpace(s[|s| - 1])
  {
    if base == 16 && HasPrefix(s, 'x', 'X') {
      DigitsSolid(s[2..], 16);
      forall i | 0 <= i < |s| ensures !IsBreak(s[i]) {
        if i >= 2 { assert s[i] == s[2..][i - 2]; }
      }
    } else {
      DigitsSolid(s, base);
    }
  }

  /** Numbers are written without line breaks or trailing blanks. */
  lemma {:induction false} NumberSolid(s: string, base: nat)
    requires (base == 10 || base == 16) && ParseInt(s, base).Some?
    ensures s != "" && NoBreak(s) && !IsSpace(s[|s| - 1])
  {
    if s != [] && (s[0] == '-' || s[0] == '+') {
      MagnitudeSolid(s[1..], base);
      forall i | 0 <= i < |s| ensures !IsBreak(s[i]) {
        if i >= 1 { assert s[i] == s[1..][i - 1]; }
      }
    } else {
      MagnitudeSolid(s, base);
    }
  }

  /** Values of the given types fit on one line. */
  ghost predicate OneLineValues(cfg: Config, env: Env, numbersToo: bool) {
    forall i :: 0 <= i < |cfg.items| && cfg.At(i).Symbol?
      && (cfg.At(i).typ == String || cfg.At(i).typ == Key || (numbersToo && IsIntHex(cfg.At(i).typ)))
      ==> OneLine(cfg.At(i).typ, ValAt(env, i).str)
  }

  /** An int or hex value comes from the user, a default, or a bound of the range in standard form. */
  lemma {:induction false} IntHexFrom(cfg: Config, u: User, env: Env, i: nat)
    requires cfg.At(i).Symbol? && IsIntHex(cfg.At(i).typ)
    ensures var s, bounds := IntHexStr(cfg, u, env, i), Bounds(cfg, env, cfg.At(i));
      || UserAt(u, i).str == Some(s)
      || s == DefaultStr(cfg, env, cfg.At(i).defaults)
      || (bounds.Some? && s == FormatInt(bounds.value.0, Base(cfg.At(i).typ)))
      || (bounds.Some? && s == FormatInt(bounds.value.1, Base(cfg.At(i).typ)))
  {
  }

  /** An int or hex value that the minimal configuration mentions is a number. */
  lemma {:induction false} MinNumber(cfg: Config, u: User, i: nat)
    requires State(cfg, u) && i < |cfg.items| && InMinConfig(cfg, Values(cfg, u), i) && IsIntHex(cfg.At(i).typ)
    ensures OneLine(cfg.At(i).typ, Values(cfg, u)[i].str)
  {
    hide Values, ParseInt, FormatInt, DefaultStr, Bounds, IntHexStr, NoBreak, WellFormed, MFree;
    var env, it := Values(cfg, u), cfg.At(i);
    ValuesAt(cfg, u, i);
    assert TypedAt(cfg, u, i);
    IntHexFrom(cfg, u, env, i);
    var bounds := Bounds(cfg, env, it);
    if bounds.Some? {
      FormatRoundTrip(bounds.value.0, Base(it.typ));
      FormatRoundTrip(bounds.value.1, Base(it.typ));
    }
    NumberSolid(env[i].str, Base(it.typ));
  }

  lemma {:induction false} MinGood(cfg: Config, prefix: string, u: User, i: nat)
    requires State(cfg, u) && i < |cfg.items| && OneLineValues(cfg, Values(cfg, u), false)
    requires InMinConfig(cfg, Values(cfg, u), i) && WrittenToConf(cfg, Values(cfg, u), i)
    ensures GoodOut(cfg, prefix, Values(cfg, u), Entry(i))
  {
    NotM(cfg, u, i);
    ValuesAt(cfg, u, i);
    if IsIntHex(cfg.At(i).typ) { MinNumber(cfg, u, i); }
  }

  lemma {:induction false} MinOmittable(cfg: Config, u: User, i: nat)
    requires State(cfg, u) && i < |cfg.items| && cfg.At(i).Symbol?
    requires !(InMinConfig(cfg, Values(cfg, u), i) && WrittenToConf(cfg, Values(cfg, u), i))
    ensures Omittable(cfg, Values(cfg, u), i)
  {
    assert MFreeItem(cfg, i) && ItemWellFormed(cfg, i);
    NotM(cfg, u, i);
    ExprNotM(cfg, u, cfg.At(i).revDep);
    if cfg.At(i).typ != Bool { ValuesAt(cfg, u, cfg.At(i).revDep.item); }
  }

  lemma {:induction false} MinSelection(cfg: Config, u: User, c: nat)
    requires State(cfg, u) && c < |cfg.items| && cfg.At(c).Choice? && Values(cfg, u)[c].sel.Some?
    requires SelectionFromDefaults(cfg, Values(cfg, u), c) != Values(cfg, u)[c].sel
    ensures var s := Values(cfg, u)[c].sel.value;
            s < |cfg.items| && InMinConfig(cfg, Values(cfg, u), s) && WrittenToConf(cfg, Values(cfg, u), s)
  {
    var env := Values(cfg, u);
    var s := env[c].sel.value;
    SelectionIs(cfg, u, c);
    MemberLevel(cfg, c, s);
    assert MFreeItem(cfg, s) && ItemWellFormed(cfg, s);
    ChoiceSymValue(cfg, u, c, s);
    ValuesAt(cfg, u, s);
    assert env[s].str == "y";
    assert "y"[0] != "n"[0];
  }

  lemma {:induction false} MinSufficient(cfg: Config, u: User)
    requires State(cfg, u)
    ensures Sufficient(cfg, Values(cfg, u), Entries(MinOuts(cfg, Values(cfg, u), 0)))
  {
    var env := Values(cfg, u);
    var outs := MinOuts(cfg, env, 0);
    MinOutsAre(cfg, env, 0);
    forall i | 0 <= i < |cfg.items| && cfg.At(i).Symbol? && i !in Entries(outs) ensures Omittable(cfg, env, i) {
      assert Entry(i) !in outs;
      MinOmittable(cfg, u, i);
    }
    forall c | 0 <= c < |cfg.items| && cfg.At(c).Choice? && env[c].sel.Some?
      ensures env[c].sel.value in Entries(outs) || SelectionFromDefaults(cfg, env, c) == env[c].sel
    {
      if SelectionFromDefaults(cfg, env, c) != env[c].sel {
        MinSelection(cfg, u, c);
        assert Entry(env[c].sel.value) in outs;
      }
    }
  }

  lemma {:induction false} FragileWritten(cfg: Config, env: Env, i: nat)
    requires Fragile(cfg, env, i)
    ensures i < |cfg.items| && WrittenToConf(cfg, env, i)
  {
  }

  /** A header line switches off a symbol that the minimal configuration leaves out because it is y anyway. */
  ghost predicate HeaderOverrules(cfg: Config, prefix: string, env: Env, header: seq<string>, i: nat, k: int) {
    LineOff(cfg, prefix, header, i, k) && Fragile(cfg, env, i) && !InMinConfig(cfg, env, i)
  }

  lemma {:induction false} MinOff(cfg: Config, prefix: string, env: Env, header: seq<string>)
    ensures var off := OffAfter(cfg, prefix, {}, Notes(header) + MinOuts(cfg, env, 0));
            (exists i :: i in off && Fragile(cfg, env, i)) <==>
            (exists i, k :: HeaderOverrules(cfg, prefix, env, header, i, k))
  {
    hide OffAfter, MinOuts, LineOff, InMinConfig;
    var outs := MinOuts(cfg, env, 0);
    var off := OffAfter(cfg, prefix, {}, Notes(header) + outs);
    MinOutsAre(cfg, env, 0);
    OffConcat(cfg, prefix, {}, Notes(header), outs);
    forall i: nat | Fragile(cfg, env, i)
      ensures i in off <==> !InMinConfig(cfg, env, i) && exists k :: LineOff(cfg, prefix, header, i, k)
    {
      FragileWritten(cfg, env, i);
      OffHeader(cfg, prefix, {}, header, i);
      OffEntries(cfg, prefix, OffAfter(cfg, prefix, {}, Notes(header)), outs, i);
    }
    if i :| i in off && Fragile(cfg, env, i) {
      var k :| LineOff(cfg, prefix, header, i, k);
      assert HeaderOverrules(cfg, prefix, env, header, i, k);
    }
    if i, k :| HeaderOverrules(cfg, prefix, env, header, i, k) { assert i in off && Fragile(cfg, env, i); }
  }

  /**
    The minimal configuration loses nothing: loading it in place of the configuration it was made from
    leaves every value, visibility and selection as it was, exactly unless a line of the header reads as
    "is not set" of a symbol that is left out because it is y by default.
    */
  lemma {:induction false} MinConfigRoundTrip(cfg: Config, prefix: string, u: User, header: seq<string>)
    requires State(cfg, u) && Named(cfg, prefix) && OneLineValues(cfg, Values(cfg, u), false) && IsHeader(header)
    ensures var env := Values(cfg, u);
            var u' := LoadReplace(cfg, prefix, u, HeaderText(header) + MinContents(cfg, prefix, env, 0));
            && ValidUser(cfg, u')
            && (Values(cfg, u') == env <==> !exists i, k :: HeaderOverrules(cfg, prefix, env, header, i, k))
  {
    hide Values, OutText, OffAfter, LoadReplace, MinOuts, MinContents, HeaderOverrules, Fragile;
    var env := Values(cfg, u);
    var outs := MinOuts(cfg, env, 0);
    MinOutsAre(cfg, env, 0);
    forall o | o in outs ensures GoodOut(cfg, prefix, env, o) { MinGood(cfg, prefix, u, o.sym); }
    MinContentsAre(cfg, prefix, env, 0);
    WithHeader(cfg, prefix, env, header, outs);
    var all := Notes(header) + outs;
    LoadWritten(cfg, prefix, u, all);
    MinSufficient(cfg, u);
    OffAreBools(cfg, prefix, {}, all);
    MinOff(cfg, prefix, env, header);
    ReloadKeepsExactly(cfg, u, LoadReplace(cfg, prefix, u, OutText(cfg, prefix, env, all)), Entries(all),
                       OffAfter(cfg, prefix, {}, all));
  }

  /** Without a header nothing can go wrong. */
  lemma {:induction false} MinConfigLosesNothing(cfg: Config, prefix: string, u: User)
    requires State(cfg, u) && Named(cfg, prefix) && OneLineValues(cfg, Values(cfg, u), false)
    ensures var u' := LoadReplace(cfg, prefix, u, MinContents(cfg, prefix, Values(cfg, u), 0));
            ValidUser(cfg, u') && Values(cfg, u') == Values(cfg, u)
  {
    hide Values, LoadReplace, MinContents;
    MinConfigRoundTrip(cfg, prefix, u, []);
    assert HeaderText([]) + MinContents(cfg, prefix, Values(cfg, u), 0) == MinContents(cfg, prefix, Values(cfg, u), 0);
  }
}
