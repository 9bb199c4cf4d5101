/** Writing configurations to .config text and loading them back. */
module ConfigFile {
  import opened Basics
  import opened Numbers
  import opened KconfigModel
  import opened KconfigEngine
  import opened ConfigText

  // ---------------------------------------------------------------------------------------------
  // Writing

  /** A symbol's .config entry, without the line break. */
  function EntryLine(cfg: Config, prefix: string, env: Env, i: nat): string
    requires cfg.At(i).Symbol?
  {
    var it, val := cfg.At(i), ValAt(env, i).str;
    if IsBoolTri(it.typ) then
      if val != "n" then SetLine(prefix, it.name, val) else UnsetLine(prefix, it.name)
    else if it.typ == String then SetLine(prefix, it.name, "\"" + Escape(val) + "\"")
    else SetLine(prefix, it.name, val)
  }

  function ConfigString(cfg: Config, prefix: string, env: Env, i: nat): string
    requires cfg.At(i).Symbol?
  {
    if WrittenToConf(cfg, env, i) then EntryLine(cfg, prefix, env, i) + "\n" else ""
  }

  /** The value the symbol would get from defaults, selects and implies alone, as the minimal writer computes it. */
  function StrDefault(cfg: Config, env: Env, i: nat): string
    requires cfg.At(i).Symbol?
  {
    var it := cfg.At(i);
    if IsBoolTri(it.typ) then
      if it.choice.Some? then "n"
      else
        var val := Max(Max(ExprValue(cfg, env, it.revDep), ExprValue(cfg, env, it.weakRevDep)),
                       DefaultTri(cfg, env, it.defaults));
        TriToStr(if val == 1 && !ActsTristate(cfg, env, i) then 2 else val)
    else if it.typ == Unknown then ""
    else DefaultStr(cfg, env, it.defaults)
  }

  /** Whether the minimal configuration mentions the symbol. */
  predicate InMinConfig(cfg: Config, env: Env, i: nat) {
    var it := cfg.At(i);
    && it.Symbol?
    && (it.choice.None? ==> ValAt(env, i).vis > ExprValue(cfg, env, it.revDep))
    && ValAt(env, i).str != StrDefault(cfg, env, i)
    && !(it.choice.Some? && cfg.At(it.choice.value).Choice? && !cfg.At(it.choice.value).optional
         && SelectionFromDefaults(cfg, env, it.choice.value) == Some(i)
         && it.typ == Bool && ValAt(env, i).tri == 2)
  }

  /** What a writer puts in the file: text lines such as headings, and symbol entries. */
  datatype Out = Note(text: string) | Entry(sym: nat)

  function OutLine(cfg: Config, prefix: string, env: Env, o: Out): string {
    match o
    case Note(text) => text
    case Entry(i) => if cfg.At(i).Symbol? then EntryLine(cfg, prefix, env, i) else ""
  }

  function OutText(cfg: Config, prefix: string, env: Env, outs: seq<Out>): string {
    if outs == [] then "" else OutLine(cfg, prefix, env, outs[0]) + "\n" + OutText(cfg, prefix, env, outs[1..])
  }

  /** The lines at the top of a file. */
  function Notes(lines: seq<string>): (r: seq<Out>)
    ensures |r| == |lines| && forall k :: 0 <= k < |r| ==> r[k] == Note(lines[k])
  {
    seq(|lines|, k requires 0 <= k < |lines| => Note(lines[k]))
  }

  function HeaderText(lines: seq<string>): string {
    if lines == [] then "" else lines[0] + "\n" + HeaderText(lines[1..])
  }

  lemma {:induction false} NotesText(cfg: Config, prefix: string, env: Env, lines: seq<string>)
    ensures OutText(cfg, prefix, env, Notes(lines)) == HeaderText(lines)
  {
    if lines != [] {
      NotesText(cfg, prefix, env, lines[1..]);
      assert Notes(lines)[1..] == Notes(lines[1..]);
    }
  }

  /** A header of comment lines. */
  predicate IsHeader(lines: seq<string>) { forall l :: l in lines ==> NoBreak(l) && IsComment(l) }

  /** The entries of the minimal configuration from item `i` on. */
  function MinOuts(cfg: Config, env: Env, i: nat): seq<Out>
    decreases |cfg.items| - i
  {
    if i >= |cfg.items| then []
    else (if InMinConfig(cfg, env, i) && WrittenToConf(cfg, env, i) then [Entry(i)] else []) + MinOuts(cfg, env, i + 1)
  }

  /** The contents of the minimal configuration from item `i` on. */
  function MinContents(cfg: Config, prefix: string, env: Env, i: nat): string
    decreases |cfg.items| - i
  {
    if i >= |cfg.items| then ""
    else
      (if InMinConfig(cfg, env, i) then ConfigString(cfg, prefix, env, i) else "") + MinContents(cfg, prefix, env, i + 1)
  }

  lemma {:induction false} OutTextConcat(cfg: Config, prefix: string, env: Env, a: seq<Out>, b: seq<Out>)
    ensures OutText(cfg, prefix, env, a + b) == OutText(cfg, prefix, env, a) + OutText(cfg, prefix, env, b)
  {
    hide OutLine;
    if a == [] {
      assert a + b == b;
    } else {
      OutTextConcat(cfg, prefix, env, a[1..], b);
      assert (a + b)[1..] == a[1..] + b;
      var head := OutLine(cfg, prefix, env, a[0]) + "\n";
      Assoc(head, OutText(cfg, prefix, env, a[1..]), OutText(cfg, prefix, env, b));
    }
  }

  lemma {:induction false} MinContentsAre(cfg: Config, prefix: string, env: Env, i: nat)
    ensures MinContents(cfg, prefix, env, i) == OutText(cfg, prefix, env, MinOuts(cfg, env, i))
    decreases |cfg.items| - i
  {
    hide WrittenToConf, EntryLine, StrDefault, ExprValue, SelectionFromDefaults;
    if i < |cfg.items| {
      MinContentsAre(cfg, prefix, env, i + 1);
      if InMinConfig(cfg, env, i) && WrittenToConf(cfg, env, i) {
        var outs := MinOuts(cfg, env, i);
        assert outs == [Entry(i)] + MinOuts(cfg, env, i + 1);
        assert outs[1..] == MinOuts(cfg, env, i + 1);
      } else {
        assert MinOuts(cfg, env, i) == MinOuts(cfg, env, i + 1);
      }
    }
  }

  lemma {:induction false} MinOutsAre(cfg: Config, env: Env, i: nat)
    ensures forall o :: o in MinOuts(cfg, env, i) <==>
              o.Entry? && i <= o.sym < |cfg.items| && InMinConfig(cfg, env, o.sym) && WrittenToConf(cfg, env, o.sym)
    ensures Distinct(MinOuts(cfg, env, i))
    decreases |cfg.items| - i
  {
    if i < |cfg.items| { MinOutsAre(cfg, env, i + 1); }
  }

  predicate Distinct(outs: seq<Out>) {
    forall j, k :: 0 <= j < k < |outs| && outs[j].Entry? ==> outs[j] != outs[k]
  }

  // ---------------------------------------------------------------------------------------------
  // Loading

  datatype Loading = Loading(user: User, flags: seq<bool>)

  ghost predicate ValidLoading(cfg: Config, st: Loading) {
    WellFormed(cfg) && |st.user| == |st.flags| == |cfg.items|
  }

  function FindSymbol(cfg: Config, name: string, k: nat): (r: Option<nat>)
    ensures r.Some? ==> k <= r.value < |cfg.items| && cfg.At(r.value).Symbol? && cfg.At(r.value).name == name
    ensures r.None? ==> forall i :: k <= i < |cfg.items| && cfg.At(i).Symbol? ==> cfg.At(i).name != name
    decreases |cfg.items| - k
  {
    if k >= |cfg.items| then None
    else if cfg.At(k).Symbol? && cfg.At(k).name == name then Some(k)
    else FindSymbol(cfg, name, k + 1)
  }

  function Assign(cfg: Config, st: Loading, i: nat, val: Value): (r: Loading)
    requires ValidLoading(cfg, st) && i < |cfg.items| && cfg.At(i).Symbol?
    ensures ValidLoading(cfg, r)
  {
    Loading(SetUser(cfg, st.user, i, val), SetFlags(cfg, st.flags, i, val))
  }

  function AssignMode(cfg: Config, st: Loading, c: nat, val: Value): (r: Loading)
    requires ValidLoading(cfg, st) && c < |cfg.items| && cfg.At(c).Choice?
    ensures ValidLoading(cfg, r)
  {
    Loading(SetMode(cfg, st.user, c, val), SetModeFlags(cfg, st.flags, c, val))
  }

  predicate BoolText(typ: SymType, val: string) {
    val != "" && (val[0] == 'y' || val[0] == 'n' || (typ == Tristate && val[0] == 'm'))
  }

  /** Assigning a bool or tristate from a file also sets the mode of its choice. */
  function AssignTri(cfg: Config, st: Loading, i: nat, val: string): (r: Loading)
    requires ValidLoading(cfg, st) && i < |cfg.items| && cfg.At(i).Symbol? && IsBoolTri(cfg.At(i).typ)
    ensures ValidLoading(cfg, r)
  {
    assert ItemWellFormed(cfg, i);
    var choice := cfg.At(i).choice;
    var st' := if choice.Some? && val != "n" then AssignMode(cfg, st, choice.value, StrV(val)) else st;
    Assign(cfg, st', i, StrV(val))
  }

  function AssignText(cfg: Config, st: Loading, i: nat, val: string): (r: Loading)
    requires ValidLoading(cfg, st) && i < |cfg.items| && cfg.At(i).Symbol?
    ensures ValidLoading(cfg, r)
  {
    var typ := cfg.At(i).typ;
    if IsBoolTri(typ) then (if BoolText(typ, val) then AssignTri(cfg, st, i, val[..1]) else st)
    else if typ == String then
      match MatchString(val)
      case None => st
      case Some(body) => Assign(cfg, st, i, StrV(Unescape(body)))
    else if typ == Key then Assign(cfg, st, i, StrV(Unescape(MatchKey(val))))
    else Assign(cfg, st, i, StrV(val))
  }

  function LoadLine(cfg: Config, prefix: string, st: Loading, text: string): (r: Loading)
    requires ValidLoading(cfg, st)
    ensures ValidLoading(cfg, r)
  {
    var line := RStrip(text);
    match MatchSet(prefix, line)
    case Some((name, val)) =>
      (match FindSymbol(cfg, name, 0)
       case None => st
       case Some(i) => AssignText(cfg, st, i, val))
    case None =>
      match MatchUnset(prefix, line)
      case None => st
      case Some(name) =>
        match FindSymbol(cfg, name, 0)
        case None => st
        case Some(i) => if IsBoolTri(cfg.At(i).typ) then Assign(cfg, st, i, StrV("n")) else st
  }

  function LoadLines(cfg: Config, prefix: string, st: Loading, lines: seq<string>): (r: Loading)
    requires ValidLoading(cfg, st)
    ensures ValidLoading(cfg, r)
    decreases |lines|
  {
    if lines == [] then st else LoadLines(cfg, prefix, LoadLine(cfg, prefix, st, lines[0]), lines[1..])
  }

  /** After replacing, items that the file did not assign have no user value. */
  function KeepSet(cfg: Config, st: Loading): User
    requires ValidLoading(cfg, st)
  {
    seq(|cfg.items|, i requires 0 <= i < |cfg.items| => if st.flags[i] || cfg.At(i).Const? then st.user[i] else UNSET)
  }

  /** The user values after loading `text` in place of the current configuration. */
  function LoadReplace(cfg: Config, prefix: string, u: User, text: string): User
    requires WellFormed(cfg) && |u| == |cfg.items|
  {
    KeepSet(cfg, LoadLines(cfg, prefix, Loading(u, seq(|u|, _ => false)), Lines(text)))
  }

  // ---------------------------------------------------------------------------------------------
  // Loading what was written

  /** Symbols have distinct names. */
  predicate Named(cfg: Config, prefix: string) {
    && AllWord(prefix)
    && (forall i :: 0 <= i < |cfg.items| && cfg.At(i).Symbol? ==> IsName(cfg.At(i).name))
    && forall i, j :: 0 <= i < j < |cfg.items| && cfg.At(i).Symbol? && cfg.At(j).Symbol? ==> cfg.At(i).name != cfg.At(j).name
  }

  /** Text that survives being written on one line. */
  predicate OneLine(typ: SymType, s: string) {
    match typ
    case String => NoBreak(s)
    case Key => AllWord(s)
    case _ => NoBreak(s) && (s == "" || !IsSpace(s[|s| - 1]))
  }

  function EnvValue(cfg: Config, env: Env, i: nat): Value {
    if IsBoolTri(cfg.At(i).typ) then TriV(ValAt(env, i).tri) else StrV(ValAt(env, i).str)
  }

  /** Assigning a symbol the value it has in `env`. */
  function AssignValue(cfg: Config, env: Env, st: Loading, i: nat): (r: Loading)
    requires ValidLoading(cfg, st) && i < |cfg.items| && cfg.At(i).Symbol?
    ensures ValidLoading(cfg, r)
  {
    if IsBoolTri(cfg.At(i).typ) then AssignTri(cfg, st, i, TriToStr(ValAt(env, i).tri))
    else Assign(cfg, st, i, StrV(ValAt(env, i).str))
  }

  predicate GoodOut(cfg: Config, prefix: string, env: Env, o: Out) {
    match o
    case Note(text) => NoBreak(text) && IsComment(text)
    case Entry(i) =>
      i < |cfg.items| && cfg.At(i).Symbol?
      && (if IsBoolTri(cfg.At(i).typ) then ValAt(env, i).str == TriToStr(ValAt(env, i).tri) && ValAt(env, i).tri != 1
          else OneLine(cfg.At(i).typ, ValAt(env, i).str))
  }

  lemma {:induction false} WordsNoBreak(s: string)
    requires AllWord(s)
    ensures NoBreak(s)
  {
  }

  lemma {:induction false} NoBreakConcat(s: string, t: string)
    requires NoBreak(s) && NoBreak(t)
    ensures NoBreak(s + t)
  {
  }

  lemma {:induction false} EscapeNoBreak(s: string)
    requires NoBreak(s)
    ensures NoBreak(Escape(s))
  {
    if s != [] { EscapeStep(s); EscapeNoBreak(s[1..]); }
  }

  /** The text to the right of `=`. */
  function WrittenText(cfg: Config, env: Env, i: nat): string {
    var val := ValAt(env, i).str;
    if cfg.At(i).typ == String then "\"" + Escape(val) + "\"" else val
  }

  lemma {:induction false} EntryLineNoBreak(cfg: Config, prefix: string, env: Env, i: nat)
    requires Named(cfg, prefix) && GoodOut(cfg, prefix, env, Entry(i))
    ensures NoBreak(EntryLine(cfg, prefix, env, i))
  {
    var it, val := cfg.At(i), ValAt(env, i).str;
    WordsNoBreak(prefix);
    assert NoBreak(it.name);
    if it.typ == String { EscapeNoBreak(val); }
    if it.typ == Key { WordsNoBreak(val); }
    NoBreakConcat(prefix + it.name + "=", WrittenText(cfg, env, i));
  }

  lemma {:induction false} RStripSetLine(prefix: string, name: string, val: string)
    requires val == "" || !IsSpace(val[|val| - 1])
    ensures RStrip(SetLine(prefix, name, val)) == SetLine(prefix, name, val)
  {
    var line := SetLine(prefix, name, val);
    if val == "" { assert line[|line| - 1] == '='; } else { assert line[|line| - 1] == val[|val| - 1]; }
  }

  lemma {:induction false} FindNamed(cfg: Config, prefix: string, i: nat)
    requires Named(cfg, prefix) && i < |cfg.items| && cfg.At(i).Symbol?
    ensures FindSymbol(cfg, cfg.At(i).name, 0) == Some(i)
  {
    assert FindSymbol(cfg, cfg.At(i).name, 0).Some?;
  }

  lemma {:induction false} LoadUnsetEntry(cfg: Config, prefix: string, st: Loading, i: nat)
    requires ValidLoading(cfg, st) && Named(cfg, prefix) && i < |cfg.items| && cfg.At(i).Symbol? && IsBoolTri(cfg.At(i).typ)
    ensures LoadLine(cfg, prefix, st, UnsetLine(prefix, cfg.At(i).name)) == Assign(cfg, st, i, StrV("n"))
  {
    hide MatchSet, MatchUnset, FindSymbol, Assign, AssignText;
    var line := UnsetLine(prefix, cfg.At(i).name);
    assert line[|line| - 1] == 't';
    UnsetLineMatches(prefix, cfg.At(i).name);
    FindNamed(cfg, prefix, i);
  }

  lemma {:induction false} LoadSetEntry(cfg: Config, prefix: string, st: Loading, i: nat, text: string)
    requires ValidLoading(cfg, st) && Named(cfg, prefix) && i < |cfg.items| && cfg.At(i).Symbol?
    requires text == "" || !IsSpace(text[|text| - 1])
    ensures LoadLine(cfg, prefix, st, SetLine(prefix, cfg.At(i).name, text)) == AssignText(cfg, st, i, text)
  {
    hide MatchSet, MatchUnset, FindSymbol, Assign, AssignText;
    RStripSetLine(prefix, cfg.At(i).name, text);
    SetLineMatches(prefix, cfg.At(i).name, text);
    FindNamed(cfg, prefix, i);
  }

  /** Reading a written entry assigns the symbol the value it was written with. */
  lemma {:induction false} LoadEntry(cfg: Config, prefix: string, env: Env, st: Loading, i: nat)
    requires ValidLoading(cfg, st) && Named(cfg, prefix) && GoodOut(cfg, prefix, env, Entry(i))
    ensures LoadLine(cfg, prefix, st, EntryLine(cfg, prefix, env, i)) == AssignValue(cfg, env, st, i)
  {
    hide LoadLine, Assign, MatchString, MatchKey, Unescape, Escape;
    var it, val := cfg.At(i), ValAt(env, i).str;
    var text := WrittenText(cfg, env, i);
    if IsBoolTri(it.typ) && val == "n" {
      LoadUnsetEntry(cfg, prefix, st, i);
    } else {
      assert text == "" || !IsSpace(text[|text| - 1]);
      LoadSetEntry(cfg, prefix, st, i, text);
      if it.typ == String { StringRoundTrip(val); }
      if it.typ == Key { KeyRoundTrip(val); }
      if IsBoolTri(it.typ) { assert val == "y" && val[..1] == "y"; }
    }
  }

  /** The symbol that a comment switches off because it reads as "is not set". */
  function SwitchedOff(cfg: Config, prefix: string, text: string): (r: Option<nat>)
    ensures r.Some? ==> r.value < |cfg.items| && cfg.At(r.value).Symbol? && IsBoolTri(cfg.At(r.value).typ)
  {
    var line := RStrip(text);
    if MatchSet(prefix, line).Some? then None
    else
      var name :- MatchUnset(prefix, line);
      var i :- FindSymbol(cfg, name, 0);
      if IsBoolTri(cfg.At(i).typ) then Some(i) else None
  }

  function ApplyNote(cfg: Config, prefix: string, st: Loading, text: string): (r: Loading)
    requires ValidLoading(cfg, st)
    ensures ValidLoading(cfg, r)
  {
    match SwitchedOff(cfg, prefix, text)
    case None => st
    case Some(i) => Assign(cfg, st, i, StrV("n"))
  }

  lemma {:induction false} LoadNote(cfg: Config, prefix: string, st: Loading, text: string)
    requires ValidLoading(cfg, st) && Named(cfg, prefix) && IsComment(text)
    ensures LoadLine(cfg, prefix, st, text) == ApplyNote(cfg, prefix, st, text)
  {
    hide MatchSet, MatchUnset, RStrip, IsName, AssignText;
    CommentSetsNoName(prefix, text);
  }

  /** A comment called "<prefix><name> is not set" switches its symbol off. */
  lemma {:induction false} UnsetTitleSwitchesOff(cfg: Config, prefix: string, i: nat)
    requires Named(cfg, prefix) && i < |cfg.items| && cfg.At(i).Symbol? && IsBoolTri(cfg.At(i).typ)
    ensures SwitchedOff(cfg, prefix, "# " + (prefix + cfg.At(i).name + " is not set")) == Some(i)
  {
    hide MatchSet, MatchUnset, FindSymbol;
    var line := UnsetLine(prefix, cfg.At(i).name);
    assert "# " + (prefix + cfg.At(i).name + " is not set") == line;
    assert line[|line| - 1] == 't';
    UnsetLineMatches(prefix, cfg.At(i).name);
    FindNamed(cfg, prefix, i);
  }

  function ApplyOuts(cfg: Config, prefix: string, env: Env, st: Loading, outs: seq<Out>): (r: Loading)
    requires ValidLoading(cfg, st)
    ensures ValidLoading(cfg, r)
    decreases |outs|
  {
    if outs == [] then st
    else if outs[0].Note? then ApplyOuts(cfg, prefix, env, ApplyNote(cfg, prefix, st, outs[0].text), outs[1..])
    else if outs[0].sym < |cfg.items| && cfg.At(outs[0].sym).Symbol? then
      ApplyOuts(cfg, prefix, env, AssignValue(cfg, env, st, outs[0].sym), outs[1..])
    else ApplyOuts(cfg, prefix, env, st, outs[1..])
  }

  lemma {:induction false} LoadEmptyLine(cfg: Config, prefix: string, st: Loading)
    requires ValidLoading(cfg, st)
    ensures LoadLine(cfg, prefix, st, "") == st
  {
  }

  /** Loading written text amounts to assigning the entries, and switching off what comments name, in order. */
  lemma {:induction false} LoadOutText(cfg: Config, prefix: string, env: Env, st: Loading, outs: seq<Out>)
    requires ValidLoading(cfg, st) && Named(cfg, prefix)
    requires forall o :: o in outs ==> GoodOut(cfg, prefix, env, o)
    ensures LoadLines(cfg, prefix, st, Lines(OutText(cfg, prefix, env, outs))) == ApplyOuts(cfg, prefix, env, st, outs)
    decreases |outs|
  {
    if outs == [] {
      assert Lines("") == [""];
      LoadEmptyLine(cfg, prefix, st);
    } else {
      hide LoadLine, AssignValue, ApplyNote, EntryLine;
      var o := outs[0];
      assert GoodOut(cfg, prefix, env, o);
      var line, rest := OutLine(cfg, prefix, env, o), OutText(cfg, prefix, env, outs[1..]);
      if o.Entry? {
        EntryLineNoBreak(cfg, prefix, env, o.sym);
        LoadEntry(cfg, prefix, env, st, o.sym);
      } else {
        LoadNote(cfg, prefix, st, o.text);
      }
      LinesCons(line, rest);
      var all := Lines(OutText(cfg, prefix, env, outs));
      assert all[1..] == Lines(rest);
      LoadOutText(cfg, prefix, env, LoadLine(cfg, prefix, st, line), outs[1..]);
    }
  }
}
