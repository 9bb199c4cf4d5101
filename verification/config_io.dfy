/** The loader and the writers, working on the cached engine. */
module ConfigIO {
  import opened Basics
  import opened Numbers
  import opened KconfigModel
  import opened KconfigCache
  import opened KconfigCoherence
  import opened KconfigEngine
  import opened ConfigText
  import opened ConfigFile
  import opened ConfigRoundTrip
  import opened ConfigFull

  // ---------------------------------------------------------------------------------------------
  // Loading

  method AssignFromText(k: Kconfig, i: nat, val: string)
    requires k.Valid() && i < |k.cfg.items| && k.cfg.At(i).Symbol?
    modifies k
    ensures k.Valid() && |k.wasSet| == |old(k.wasSet)|
    ensures Loading(k.user, k.wasSet) == AssignText(k.cfg, old(Loading(k.user, k.wasSet)), i, val)
  {
    var it := k.cfg.At(i);
    assert ItemWellFormed(k.cfg, i);
    if IsBoolTri(it.typ) {
      if !BoolText(it.typ, val) { return; }
      var v := val[..1];
      if it.choice.Some? && v != "n" { var _ := k.SetChoiceMode(it.choice.value, StrV(v)); }
      var _ := k.SetValue(i, StrV(v));
    } else if it.typ == String {
      var m := MatchString(val);
      if m.None? { return; }
      var _ := k.SetValue(i, StrV(Unescape(m.value)));
    } else if it.typ == Key {
      var _ := k.SetValue(i, StrV(Unescape(MatchKey(val))));
    } else {
      var _ := k.SetValue(i, StrV(val));
    }
  }

  method LoadOneLine(k: Kconfig, prefix: string, text: string)
    requires k.Valid()
    modifies k
    ensures k.Valid()
    ensures Loading(k.user, k.wasSet) == LoadLine(k.cfg, prefix, old(Loading(k.user, k.wasSet)), text)
  {
    var line := RStrip(text);
    var m := MatchSet(prefix, line);
    if m.Some? {
      var i := FindSymbol(k.cfg, m.value.0, 0);
      if i.None? { return; }
      AssignFromText(k, i.value, m.value.1);
    } else {
      var n := MatchUnset(prefix, line);
      if n.None? { return; }
      var i := FindSymbol(k.cfg, n.value, 0);
      if i.None? || !IsBoolTri(k.cfg.At(i.value).typ) { return; }
      var _ := k.SetValue(i.value, StrV("n"));
    }
  }

  /** Assigns from the lines one after another. */
  method LoadAllLines(k: Kconfig, prefix: string, lines: seq<string>)
    requires k.Valid()
    modifies k
    ensures k.Valid() && ValidLoading(k.cfg, Loading(k.user, k.wasSet))
    ensures Loading(k.user, k.wasSet) == LoadLines(k.cfg, prefix, old(Loading(k.user, k.wasSet)), lines)
  {
    hide Supported, LoadLine;
    for j := 0 to |lines|
      invariant k.Valid() && ValidLoading(k.cfg, Loading(k.user, k.wasSet))
      invariant LoadLines(k.cfg, prefix, old(Loading(k.user, k.wasSet)), lines)
             == LoadLines(k.cfg, prefix, Loading(k.user, k.wasSet), lines[j..])
    {
      LoadOneLine(k, prefix, lines[j]);
      assert lines[j..][1..] == lines[j + 1..];
    }
  }

  /** Loads a .config file, in place of the current configuration or on top of it. */
  method LoadConfig(k: Kconfig, prefix: string, text: string, replace: bool)
    requires k.Valid()
    modifies k
    ensures k.Valid()
    ensures k.user == if replace then LoadReplace(k.cfg, prefix, old(k.user), text)
                      else LoadLines(k.cfg, prefix, old(Loading(k.user, k.wasSet)), Lines(text)).user
  {
    hide Supported, LoadLines, Lines;
    var n := |k.cfg.items|;
    if replace { k.wasSet := seq(n, _ => false); }
    LoadAllLines(k, prefix, Lines(text));
    if !replace { return; }
    ghost var fin := Loading(k.user, k.wasSet);
    for i := 0 to n
      invariant k.Valid() && k.wasSet == fin.flags && |k.user| == |fin.user| == n
      invariant forall j :: 0 <= j < n ==>
                  k.user[j] == if j < i && !fin.flags[j] && !k.cfg.At(j).Const? then UNSET else fin.user[j]
    {
      if !k.wasSet[i] {
        if k.cfg.At(i).Symbol? { k.UnsetValue(i); } else if k.cfg.At(i).Choice? { k.UnsetChoice(i); }
      }
    }
  }

  // ---------------------------------------------------------------------------------------------
  // Writing

  method ConfigStringOf(k: Kconfig, prefix: string, i: nat) returns (s: string)
    requires k.Valid() && i < |k.cfg.items| && k.cfg.At(i).Symbol?
    modifies k`cache
    ensures k.Valid() && s == ConfigString(k.cfg, prefix, Values(k.cfg, k.user), i)
  {
    var it := k.cfg.At(i);
    var val := k.StrValueOf(i);
    SupportedCoherent(k.cfg, k.user, k.cache, i);
    assert SupportedAt(k.cfg, k.user, k.cache, i);
    if !k.cache[i].writes { return ""; }
    if IsBoolTri(it.typ) {
      s := if val != "n" then SetLine(prefix, it.name, val) else UnsetLine(prefix, it.name);
    } else if it.typ == String {
      s := SetLine(prefix, it.name, "\"" + Escape(val) + "\"");
    } else {
      s := SetLine(prefix, it.name, val);
    }
    s := s + "\n";
  }

  predicate RefsIn(cfg: Config, e: Expr) {
    match e
    case Ref(j) => j < |cfg.items|
    case And(a, b) => RefsIn(cfg, a) && RefsIn(cfg, b)
    case Or(a, b) => RefsIn(cfg, a) && RefsIn(cfg, b)
    case Not(a) => RefsIn(cfg, a)
    case Rel(_, a, b) => a < |cfg.items| && b < |cfg.items| && !cfg.At(a).Choice? && !cfg.At(b).Choice?
  }

  lemma {:induction false} BelowRefsIn(cfg: Config, e: Expr, i: nat)
    requires ExprBelow(cfg, e, i)
    ensures RefsIn(cfg, e)
  {
    match e
    case Ref(_) =>
    case And(a, b) => BelowRefsIn(cfg, a, i); BelowRefsIn(cfg, b, i);
    case Or(a, b) => BelowRefsIn(cfg, a, i); BelowRefsIn(cfg, b, i);
    case Not(a) => BelowRefsIn(cfg, a, i);
    case Rel(_, _, _) =>
  }

  lemma {:induction false} RefsInBelow(cfg: Config, e: Expr)
    requires WellFormed(cfg) && RefsIn(cfg, e)
    ensures ExprBelow(cfg, e, |cfg.items|)
  {
    match e
    case Ref(_) =>
    case And(a, b) => RefsInBelow(cfg, a); RefsInBelow(cfg, b);
    case Or(a, b) => RefsInBelow(cfg, a); RefsInBelow(cfg, b);
    case Not(a) => RefsInBelow(cfg, a);
    case Rel(_, _, _) =>
  }

  /** The value of an expression that need not belong to an item. */
  method ExprOf(k: Kconfig, e: Expr) returns (v: Tri)
    requires k.Valid() && RefsIn(k.cfg, e)
    modifies k`cache
    ensures k.Valid() && v == ExprValue(k.cfg, Values(k.cfg, k.user), e)
  {
    hide Supported, Values, ExprValue, KnownExpr, ExprBelow;
    var i := |k.cfg.items|;
    RefsInBelow(k.cfg, e);
    v := k.EvalExpr(e, i, 3);
    var n := 8 * k.cfg.Rank(i) + 8;
    SupportedSoundBelow(k.cfg, k.user, k.cache, Values(k.cfg, k.user), n);
    ExprSound(k.cfg, k.user, k.cache, Values(k.cfg, k.user), n, i, e);
  }

  method ActiveDefaultFor(k: Kconfig, i: nat) returns (d: Option<Default>)
    requires k.Valid() && i < |k.cfg.items| && k.cfg.At(i).Symbol?
    modifies k`cache
    ensures k.Valid() && d == ActiveDefault(k.cfg, Values(k.cfg, k.user), k.cfg.At(i).defaults)
    ensures d.Some? ==> d.value in k.cfg.At(i).defaults
  {
    d := k.ActiveDefaultOf(i, 3);
    assert ItemWellFormed(k.cfg, i);
    var n := 8 * k.cfg.Rank(i) + 8;
    SupportedSoundBelow(k.cfg, k.user, k.cache, Values(k.cfg, k.user), n);
    DefaultSound(k.cfg, k.user, k.cache, Values(k.cfg, k.user), n, i, k.cfg.At(i).defaults);
  }

  method StrDefaultOf(k: Kconfig, i: nat) returns (s: string)
    requires k.Valid() && i < |k.cfg.items| && k.cfg.At(i).Symbol?
    modifies k`cache
    ensures k.Valid() && s == StrDefault(k.cfg, Values(k.cfg, k.user), i)
  {
    hide Supported, Values;
    var it := k.cfg.At(i);
    assert ItemWellFormed(k.cfg, i);
    if IsBoolTri(it.typ) {
      if it.choice.Some? { return "n"; }
      var val: Tri := 0;
      var d := ActiveDefaultFor(k, i);
      if d.Some? {
        BelowRefsIn(k.cfg, d.value.value, i);
        BelowRefsIn(k.cfg, d.value.cond, i);
        var a := ExprOf(k, d.value.value);
        var b := ExprOf(k, d.value.cond);
        val := Min(a, b);
      }
      BelowRefsIn(k.cfg, it.revDep, i);
      BelowRefsIn(k.cfg, it.weakRevDep, i);
      var rev := ExprOf(k, it.revDep);
      var weak := ExprOf(k, it.weakRevDep);
      val := Max(Max(rev, weak), val);
      if val == 1 {
        if it.typ == Bool {
          val := 2;
        } else {
          var m := k.TriValueOf(k.cfg.modules);
          if m == 0 { val := 2; }
        }
      }
      return TriToStr(val);
    }
    if it.typ == Unknown { return ""; }
    var d := ActiveDefaultFor(k, i);
    if d.None? { return ""; }
    assert OperandBelow(k.cfg, d.value.value.item, i);
    s := k.StrValueOf(d.value.value.item);
  }

  method IsInMinConfig(k: Kconfig, i: nat) returns (r: bool)
    requires k.Valid() && i < |k.cfg.items| && k.cfg.At(i).Symbol?
    modifies k`cache
    ensures k.Valid() && r == InMinConfig(k.cfg, Values(k.cfg, k.user), i)
  {
    hide Supported, Values;
    var it := k.cfg.At(i);
    assert ItemWellFormed(k.cfg, i);
    if it.choice.None? {
      var vis := k.VisibilityOf(i);
      BelowRefsIn(k.cfg, it.revDep, i);
      var rev := ExprOf(k, it.revDep);
      if vis <= rev { return false; }
    }
    var val := k.StrValueOf(i);
    var def := StrDefaultOf(k, i);
    if val == def { return false; }
    if it.choice.Some? && !k.cfg.At(it.choice.value).optional {
      var sel := k.SelectionFromDefaultsOf(it.choice.value);
      var tri := k.TriValueOf(i);
      if sel == Some(i) && it.typ == Bool && tri == 2 { return false; }
    }
    return true;
  }

  /** The part of the minimal configuration that item `i` contributes. */
  method MinPieceOf(k: Kconfig, prefix: string, i: nat) returns (s: string)
    requires k.Valid() && i < |k.cfg.items|
    modifies k`cache
    ensures k.Valid()
    ensures var env := Values(k.cfg, k.user);
            s == if InMinConfig(k.cfg, env, i) then ConfigString(k.cfg, prefix, env, i) else ""
  {
    s := "";
    if k.cfg.At(i).Symbol? {
      var keep := IsInMinConfig(k, i);
      if keep { s := ConfigStringOf(k, prefix, i); }
    }
  }

  /** The minimal configuration: entries for the symbols whose value is not their default. */
  method MinConfigContents(k: Kconfig, prefix: string, header: string) returns (text: string)
    requires k.Valid()
    modifies k`cache
    ensures k.Valid() && text == header + MinContents(k.cfg, prefix, Values(k.cfg, k.user), 0)
  {
    hide Supported, Values, MinContents, InMinConfig, ConfigString;
    text := header;
    ghost var env := Values(k.cfg, k.user);
    ghost var all := header + MinContents(k.cfg, prefix, env, 0);
    for i := 0 to |k.cfg.items|
      invariant k.Valid() && env == Values(k.cfg, k.user)
      invariant text + MinContents(k.cfg, prefix, env, i) == all
    {
      MinStep(k.cfg, prefix, env, text, i);
      var s := MinPieceOf(k, prefix, i);
      text := text + s;
    }
    MinEnd(k.cfg, prefix, env, text);
  }

  lemma {:induction false} MinStep(cfg: Config, prefix: string, env: Env, text: string, i: nat)
    requires i < |cfg.items|
    ensures var s := if InMinConfig(cfg, env, i) then ConfigString(cfg, prefix, env, i) else "";
            text + MinContents(cfg, prefix, env, i) == (text + s) + MinContents(cfg, prefix, env, i + 1)
  {
    hide ConfigString;
    var s := if InMinConfig(cfg, env, i) then ConfigString(cfg, prefix, env, i) else "";
    Assoc(text, s, MinContents(cfg, prefix, env, i + 1));
  }

  lemma {:induction false} MinEnd(cfg: Config, prefix: string, env: Env, text: string)
    ensures text + MinContents(cfg, prefix, env, |cfg.items|) == text
  {
  }

  lemma {:induction false} OneOut(cfg: Config, prefix: string, env: Env, o: Out)
    ensures OutText(cfg, prefix, env, [o]) == OutLine(cfg, prefix, env, o) + "\n"
  {
  }

  /** Passing one node of the menu tree. */
  method WriteNode(k: Kconfig, prefix: string, n: Node, seen: set<nat>, afterEnd: bool)
    returns (text: string, seen': set<nat>, afterEnd': bool)
    requires k.Valid()
    requires if n.SymNode? then n.sym < |k.cfg.items| && k.cfg.At(n.sym).Symbol? else RefsIn(k.cfg, n.shown)
    modifies k`cache
    ensures k.Valid() && seen' == NodeSeen(n, seen)
    ensures afterEnd' == NodeAfterEnd(k.cfg, Values(k.cfg, k.user), n, seen, afterEnd)
    ensures text == OutText(k.cfg, prefix, Values(k.cfg, k.user), NodeOuts(k.cfg, Values(k.cfg, k.user), n, seen, afterEnd))
  {
    hide Supported, Values;
    text, seen', afterEnd' := "", seen, afterEnd;
    ghost var env := Values(k.cfg, k.user);
    match n
    case SymNode(i) =>
      if i in seen { return; }
      seen' := seen + {i};
      var s := ConfigStringOf(k, prefix, i);
      if s == "" { return; }
      OneOut(k.cfg, prefix, env, Entry(i));
      if afterEnd {
        OneOut(k.cfg, prefix, env, Note(""));
        OutTextConcat(k.cfg, prefix, env, [Note("")], [Entry(i)]);
        afterEnd' := false;
        text := "\n";
      }
      text := text + s;
    case Heading(title, shown) =>
      var v := ExprOf(k, shown);
      if v > 0 {
        HeadingText(k.cfg, prefix, env, title);
        text := "\n#\n# " + title + "\n#\n";
        afterEnd' := false;
      }
    case EndOfMenu(title, shown) =>
      var v := ExprOf(k, shown);
      if v > 0 {
        OneOut(k.cfg, prefix, env, Note("# end of " + title));
        text := "# end of " + title + "\n";
        afterEnd' := true;
      }
  }

  lemma {:induction false} HeadingText(cfg: Config, prefix: string, env: Env, title: string)
    ensures OutText(cfg, prefix, env, [Note(""), Note("#"), Note("# " + title), Note("#")]) == "\n#\n# " + title + "\n#\n"
  {
    var a, b, c := Note(""), Note("#"), Note("# " + title);
    assert [a, b, c, b] == [a] + ([b] + ([c] + [b]));
    OutTextConcat(cfg, prefix, env, [c], [b]);
    OutTextConcat(cfg, prefix, env, [b], [c] + [b]);
    OutTextConcat(cfg, prefix, env, [a], [b] + ([c] + [b]));
    OneOut(cfg, prefix, env, a);
    OneOut(cfg, prefix, env, b);
    OneOut(cfg, prefix, env, c);
    assert "" + "\n" + ("#" + "\n" + ("# " + title + "\n" + ("#" + "\n"))) == "\n#\n# " + title + "\n#\n";
  }

  /** The full configuration: every symbol that has an entry, once, with menu headings. */
  method ConfigContents(k: Kconfig, prefix: string, header: string, nodes: seq<Node>) returns (text: string)
    requires k.Valid()
    requires forall n :: n in nodes ==>
               if n.SymNode? then n.sym < |k.cfg.items| && k.cfg.At(n.sym).Symbol? else RefsIn(k.cfg, n.shown)
    modifies k`cache
    ensures k.Valid()
    ensures var env := Values(k.cfg, k.user);
            text == header + OutText(k.cfg, prefix, env, FullOuts(k.cfg, env, nodes, {}, false))
  {
    hide Supported, Values, FullOuts, NodeOuts, OutText;
    text := header;
    ghost var env := Values(k.cfg, k.user);
    ghost var all := header + OutText(k.cfg, prefix, env, FullOuts(k.cfg, env, nodes, {}, false));
    var seen, afterEnd := {}, false;
    assert nodes[0..] == nodes;
    for j := 0 to |nodes|
      invariant k.Valid() && env == Values(k.cfg, k.user)
      invariant text + OutText(k.cfg, prefix, env, FullOuts(k.cfg, env, nodes[j..], seen, afterEnd)) == all
    {
      FullStep(k.cfg, prefix, env, text, nodes, j, seen, afterEnd);
      var s;
      s, seen, afterEnd := WriteNode(k, prefix, nodes[j], seen, afterEnd);
      text := text + s;
    }
    assert nodes[|nodes|..] == [];
    FullEnd(k.cfg, prefix, env, text, seen, afterEnd);
  }

  /** Writing one more node. */
  lemma {:induction false} FullStep(cfg: Config, prefix: string, env: Env, text: string, nodes: seq<Node>, j: nat, seen: set<nat>, afterEnd: bool)
    requires j < |nodes|
    ensures var s := OutText(cfg, prefix, env, NodeOuts(cfg, env, nodes[j], seen, afterEnd));
            var tail := FullOuts(cfg, env, nodes[j + 1..], NodeSeen(nodes[j], seen), NodeAfterEnd(cfg, env, nodes[j], seen, afterEnd));
            var whole := text + OutText(cfg, prefix, env, FullOuts(cfg, env, nodes[j..], seen, afterEnd));
            whole == (text + s) + OutText(cfg, prefix, env, tail)
  {
    hide NodeOuts, OutText, NodeSeen, NodeAfterEnd;
    assert nodes[j..][1..] == nodes[j + 1..];
    var head := NodeOuts(cfg, env, nodes[j], seen, afterEnd);
    var tail := FullOuts(cfg, env, nodes[j + 1..], NodeSeen(nodes[j], seen), NodeAfterEnd(cfg, env, nodes[j], seen, afterEnd));
    OutTextConcat(cfg, prefix, env, head, tail);
    Assoc(text, OutText(cfg, prefix, env, head), OutText(cfg, prefix, env, tail));
  }

  lemma {:induction false} FullEnd(cfg: Config, prefix: string, env: Env, text: string, seen: set<nat>, afterEnd: bool)
    ensures text + OutText(cfg, prefix, env, FullOuts(cfg, env, [], seen, afterEnd)) == text
  {
  }

  // ---------------------------------------------------------------------------------------------
  // Saving and loading back

  /** Replacing the configuration by its own minimal form changes no value, exactly unless the header overrules a symbol. */
  method SaveMinAndReload(k: Kconfig, prefix: string, header: seq<string>) returns (text: string)
    requires k.Valid() && MFree(k.cfg) && Named(k.cfg, prefix) && OneLineValues(k.cfg, Values(k.cfg, k.user), false)
    requires IsHeader(header)
    modifies k
    ensures k.Valid()
    ensures Values(k.cfg, k.user) == old(Values(k.cfg, k.user)) <==>
            !exists i, m :: HeaderOverrules(k.cfg, prefix, old(Values(k.cfg, k.user)), header, i, m)
  {
    hide Supported, Values, LoadReplace, MinContents, MFree, Named, OneLineValues, HeaderOverrules, IsHeader;
    MinConfigRoundTrip(k.cfg, prefix, k.user, header);
    text := MinConfigContents(k, prefix, HeaderText(header));
    LoadConfig(k, prefix, text, true);
  }

  /** So does replacing it by its full form, exactly unless a heading overrules a symbol. */
  method SaveAndReload(k: Kconfig, prefix: string, header: seq<string>, nodes: seq<Node>) returns (text: string)
    requires k.Valid() && MFree(k.cfg) && Named(k.cfg, prefix) && OneLineValues(k.cfg, Values(k.cfg, k.user), true)
    requires IsHeader(header) && PlainTitles(nodes)
    requires forall i: nat :: SymNode(i) in nodes <==> i < |k.cfg.items| && k.cfg.At(i).Symbol?
    requires forall n :: n in nodes && !n.SymNode? ==> RefsIn(k.cfg, n.shown)
    modifies k
    ensures k.Valid()
    ensures Values(k.cfg, k.user) == old(Values(k.cfg, k.user)) <==>
            !exists i, j, m :: Overruled(k.cfg, prefix, old(Values(k.cfg, k.user)), nodes, i, j, m)
  {
    hide Supported, Values, LoadReplace, FullOuts, OutText, MFree, Named, OneLineValues, PlainTitles, RefsIn, Overruled, IsHeader;
    FullConfigRoundTrip(k.cfg, prefix, k.user, header, nodes);
    assert forall n :: n in nodes && n.SymNode? ==> n == SymNode(n.sym);
    text := ConfigContents(k, prefix, HeaderText(header), nodes);
    LoadConfig(k, prefix, text, true);
  }
}
