/**
  The full configuration. Loading back what was written is the identity, exactly unless a heading that
  reads as an "is not set" line stands behind a symbol that it then switches off.
  */
module ConfigFull {
  import opened Basics
  import opened KconfigModel
  import opened KconfigEngine
  import opened KconfigProps
  import opened ConfigText
  import opened ConfigFile
  import opened ConfigRoundTrip

  /** What the writer passes on its walk over the menu tree; `shown` holds for visible menus and comments. */
  datatype Node = SymNode(sym: nat) | Heading(title: string, shown: Expr) | EndOfMenu(title: string, shown: Expr)

  /** The lines written at one node; `seen` are the symbols already passed. */
  function NodeOuts(cfg: Config, env: Env, n: Node, seen: set<nat>, afterEnd: bool): seq<Out> {
    match n
    case SymNode(i) =>
      if i in seen || !WrittenToConf(cfg, env, i) then []
      else (if afterEnd then [Note("")] else []) + [Entry(i)]
    case Heading(title, shown) =>
      if ExprValue(cfg, env, shown) == 0 then [] else [Note(""), Note("#"), Note("# " + title), Note("#")]
    case EndOfMenu(title, shown) =>
      if ExprValue(cfg, env, shown) == 0 then [] else [Note("# end of " + title)]
  }

  function NodeSeen(n: Node, seen: set<nat>): set<nat> { if n.SymNode? then seen + {n.sym} else seen }

  /** Whether the last thing written was an end-of-menu comment. */
  function NodeAfterEnd(cfg: Config, env: Env, n: Node, seen: set<nat>, afterEnd: bool): bool {
    if NodeOuts(cfg, env, n, seen, afterEnd) == [] then afterEnd else n.EndOfMenu?
  }

  function FullOuts(cfg: Config, env: Env, nodes: seq<Node>, seen: set<nat>, afterEnd: bool): seq<Out> {
    if nodes == [] then []
    else
      NodeOuts(cfg, env, nodes[0], seen, afterEnd)
      + FullOuts(cfg, env, nodes[1..], NodeSeen(nodes[0], seen), NodeAfterEnd(cfg, env, nodes[0], seen, afterEnd))
  }

  /** Headings fit on a line. */
  ghost predicate PlainTitles(nodes: seq<Node>) { forall n :: n in nodes && !n.SymNode? ==> NoBreak(n.title) }

  lemma {:induction false} NodeOutsAre(cfg: Config, env: Env, n: Node, seen: set<nat>, afterEnd: bool)
    ensures forall i :: Entry(i) in NodeOuts(cfg, env, n, seen, afterEnd) <==>
              n == SymNode(i) && i !in seen && WrittenToConf(cfg, env, i)
    ensures Distinct(NodeOuts(cfg, env, n, seen, afterEnd))
  {
    hide WrittenToConf, ExprValue;
  }

  lemma {:induction false} DistinctConcat(a: seq<Out>, b: seq<Out>)
    requires Distinct(a) && Distinct(b) && forall o :: o in a && o.Entry? ==> o !in b
    ensures Distinct(a + b)
  {
    var c := a + b;
    forall j, k | 0 <= j < k < |c| && c[j].Entry? ensures c[j] != c[k] {
      if j < |a| <= k { assert c[j] in a && c[k] in b; }
    }
  }

  lemma {:induction false} FullOutsAre(cfg: Config, env: Env, nodes: seq<Node>, seen: set<nat>, afterEnd: bool)
    ensures forall i :: Entry(i) in FullOuts(cfg, env, nodes, seen, afterEnd) <==>
              SymNode(i) in nodes && i !in seen && WrittenToConf(cfg, env, i)
    ensures Distinct(FullOuts(cfg, env, nodes, seen, afterEnd))
    decreases |nodes|
  {
    if nodes != [] {
      hide NodeOuts, NodeAfterEnd, WrittenToConf, Distinct;
      var n, rest, ae := nodes[0], nodes[1..], NodeAfterEnd(cfg, env, nodes[0], seen, afterEnd);
      assert nodes == [n] + rest;
      NodeOutsAre(cfg, env, n, seen, afterEnd);
      FullOutsAre(cfg, env, rest, NodeSeen(n, seen), ae);
      var head, tail := NodeOuts(cfg, env, n, seen, afterEnd), FullOuts(cfg, env, rest, NodeSeen(n, seen), ae);
      forall o | o in head && o.Entry? ensures o !in tail { assert Entry(o.sym) in head; }
      DistinctConcat(head, tail);
    } else {
      assert Distinct(FullOuts(cfg, env, nodes, seen, afterEnd));
    }
  }

  lemma {:induction false} FullNotes(cfg: Config, prefix: string, env: Env, nodes: seq<Node>, seen: set<nat>, afterEnd: bool)
    requires PlainTitles(nodes)
    ensures forall o :: o in FullOuts(cfg, env, nodes, seen, afterEnd) && o.Note? ==> GoodOut(cfg, prefix, env, o)
    decreases |nodes|
  {
    if nodes != [] {
      var n, rest := nodes[0], nodes[1..];
      assert nodes == [n] + rest;
      FullNotes(cfg, prefix, env, rest, NodeSeen(n, seen), NodeAfterEnd(cfg, env, n, seen, afterEnd));
      NodeNotes(cfg, prefix, env, n, seen, afterEnd);
      hide NodeOuts, GoodOut, NodeSeen, NodeAfterEnd;
    }
  }

  lemma {:induction false} NodeNotes(cfg: Config, prefix: string, env: Env, n: Node, seen: set<nat>, afterEnd: bool)
    requires n.SymNode? || NoBreak(n.title)
    ensures forall o :: o in NodeOuts(cfg, env, n, seen, afterEnd) && o.Note? ==> GoodOut(cfg, prefix, env, o)
  {
    if !n.SymNode? {
      NoBreakConcat("# ", n.title);
      NoBreakConcat("# end of ", n.title);
    }
  }

  lemma {:induction false} FullSufficient(cfg: Config, u: User, em: set<nat>)
    requires State(cfg, u)
    requires forall i :: 0 <= i < |cfg.items| && cfg.At(i).Symbol? ==> (i in em <==> WrittenToConf(cfg, Values(cfg, u), i))
    ensures Sufficient(cfg, Values(cfg, u), em)
  {
    var env := Values(cfg, u);
    forall i | 0 <= i < |cfg.items| && cfg.At(i).Symbol? && i !in em ensures Omittable(cfg, env, i) {
      assert MFreeItem(cfg, i);
    }
    forall c | 0 <= c < |cfg.items| && cfg.At(c).Choice? && env[c].sel.Some? ensures env[c].sel.value in em {
      SelectionIs(cfg, u, c);
      MemberLevel(cfg, c, env[c].sel.value);
      assert MFreeItem(cfg, env[c].sel.value);
    }
  }

  // ---------------------------------------------------------------------------------------------
  // Headings that read as "is not set"

  /** The heading is written and switches symbol `i` off when it is read. */
  ghost predicate HeadingOff(cfg: Config, prefix: string, env: Env, n: Node, i: nat) {
    n.Heading? && ExprValue(cfg, env, n.shown) > 0 && SwitchedOff(cfg, prefix, "# " + n.title) == Some(i)
  }

  ghost predicate OffAt(cfg: Config, prefix: string, env: Env, nodes: seq<Node>, i: nat, k: int) {
    0 <= k < |nodes| && HeadingOff(cfg, prefix, env, nodes[k], i)
  }

  ghost predicate OffBehind(cfg: Config, prefix: string, env: Env, nodes: seq<Node>, i: nat, j: int, k: int) {
    0 <= j < k && OffAt(cfg, prefix, env, nodes, i, k) && nodes[j] == SymNode(i)
  }

  /** A heading behind symbol `i` switches it off although the user can see it on. */
  ghost predicate Overruled(cfg: Config, prefix: string, env: Env, nodes: seq<Node>, i: nat, j: int, k: int) {
    OffBehind(cfg, prefix, env, nodes, i, j, k) && Fragile(cfg, env, i)
  }

  /** What one node does to the symbols switched off. */
  lemma {:induction false} NodeOff(cfg: Config, prefix: string, env: Env, off: set<nat>, n: Node, seen: set<nat>, afterEnd: bool, i: nat)
    requires AllWord(prefix) && WrittenToConf(cfg, env, i)
    ensures i in OffAfter(cfg, prefix, off, NodeOuts(cfg, env, n, seen, afterEnd)) <==>
            HeadingOff(cfg, prefix, env, n, i) || (i in off && !(n == SymNode(i) && i !in seen))
  {
    hide SwitchedOff, WrittenToConf, ExprValue;
    PlainNotes(cfg, prefix);
    match n
    case SymNode(s) =>
      if afterEnd { OffConcat(cfg, prefix, off, [Note("")], [Entry(s)]); }
      OffOne(cfg, prefix, off, Note(""));
      OffOne(cfg, prefix, off, Entry(s));
    case Heading(title, _) =>
      var a, b, c := Note(""), Note("#"), Note("# " + title);
      assert [a, b, c, b] == [a, b] + [c, b] && [a, b] == [a] + [b] && [c, b] == [c] + [b];
      var off' := OffStep(cfg, prefix, off, c);
      OffConcat(cfg, prefix, off, [a, b], [c, b]);
      OffConcat(cfg, prefix, off, [a], [b]);
      OffConcat(cfg, prefix, off, [c], [b]);
      OffOne(cfg, prefix, off, a);
      OffOne(cfg, prefix, off, b);
      OffOne(cfg, prefix, off, c);
      OffOne(cfg, prefix, off', b);
    case EndOfMenu(title, _) =>
      EndSwitchesNothing(cfg, prefix, title);
      OffOne(cfg, prefix, off, Note("# end of " + title));
  }

  lemma {:induction false} OffOne(cfg: Config, prefix: string, off: set<nat>, o: Out)
    ensures OffAfter(cfg, prefix, off, [o]) == OffStep(cfg, prefix, off, o)
  {
    assert [o][1..] == [];
  }

  lemma {:induction false} PlainNotes(cfg: Config, prefix: string)
    ensures SwitchedOff(cfg, prefix, "") == None && SwitchedOff(cfg, prefix, "#") == None
  {
    RStripIs("#");
  }

  lemma {:induction false} EndSwitchesNothing(cfg: Config, prefix: string, title: string)
    requires AllWord(prefix)
    ensures SwitchedOff(cfg, prefix, "# end of " + title) == None
  {
    EndUnsetsNothing(prefix, title);
  }

  lemma {:induction false} OffAtCons(cfg: Config, prefix: string, env: Env, n: Node, rest: seq<Node>, i: nat)
    ensures (exists k :: OffAt(cfg, prefix, env, [n] + rest, i, k)) <==>
            HeadingOff(cfg, prefix, env, n, i) || exists k :: OffAt(cfg, prefix, env, rest, i, k)
  {
    hide HeadingOff;
    var all := [n] + rest;
    if HeadingOff(cfg, prefix, env, n, i) { assert OffAt(cfg, prefix, env, all, i, 0); }
    if k :| OffAt(cfg, prefix, env, rest, i, k) { assert OffAt(cfg, prefix, env, all, i, k + 1); }
    if k :| OffAt(cfg, prefix, env, all, i, k) { assert k > 0 ==> OffAt(cfg, prefix, env, rest, i, k - 1); }
  }

  lemma {:induction false} OffBehindCons(cfg: Config, prefix: string, env: Env, n: Node, rest: seq<Node>, i: nat)
    ensures (exists j, k :: OffBehind(cfg, prefix, env, [n] + rest, i, j, k)) <==>
            (n == SymNode(i) && exists k :: OffAt(cfg, prefix, env, rest, i, k))
            || exists j, k :: OffBehind(cfg, prefix, env, rest, i, j, k)
  {
    hide HeadingOff;
    var all := [n] + rest;
    if k :| n == SymNode(i) && OffAt(cfg, prefix, env, rest, i, k) { assert OffBehind(cfg, prefix, env, all, i, 0, k + 1); }
    if j, k :| OffBehind(cfg, prefix, env, rest, i, j, k) { assert OffBehind(cfg, prefix, env, all, i, j + 1, k + 1); }
    if j, k :| OffBehind(cfg, prefix, env, all, i, j, k) {
      assert OffAt(cfg, prefix, env, rest, i, k - 1);
      assert j > 0 ==> OffBehind(cfg, prefix, env, rest, i, j - 1, k - 1);
    }
  }

  /** A written symbol is off in the end exactly if a heading behind its entry switches it off. */
  lemma {:induction false} FullOff(cfg: Config, prefix: string, env: Env, off: set<nat>, nodes: seq<Node>,
                                   seen: set<nat>, afterEnd: bool, i: nat)
    requires AllWord(prefix) && WrittenToConf(cfg, env, i) && (i in seen || SymNode(i) in nodes)
    ensures i in OffAfter(cfg, prefix, off, FullOuts(cfg, env, nodes, seen, afterEnd)) <==>
            if i in seen then i in off || exists k :: OffAt(cfg, prefix, env, nodes, i, k)
            else exists j, k :: OffBehind(cfg, prefix, env, nodes, i, j, k)
    decreases |nodes|
  {
    hide NodeOuts, NodeAfterEnd, HeadingOff, WrittenToConf, OffAfter, SwitchedOff;
    if nodes == [] {
      OffNothing(cfg, prefix, off);
    } else {
      var n, rest := nodes[0], nodes[1..];
      assert nodes == [n] + rest;
      var head, ae := NodeOuts(cfg, env, n, seen, afterEnd), NodeAfterEnd(cfg, env, n, seen, afterEnd);
      var off' := OffAfter(cfg, prefix, off, head);
      NodeOff(cfg, prefix, env, off, n, seen, afterEnd, i);
      OffConcat(cfg, prefix, off, head, FullOuts(cfg, env, rest, NodeSeen(n, seen), ae));
      FullOff(cfg, prefix, env, off', rest, NodeSeen(n, seen), ae, i);
      OffAtCons(cfg, prefix, env, n, rest, i);
      OffBehindCons(cfg, prefix, env, n, rest, i);
      if n == SymNode(i) { SymIsNoHeading(cfg, prefix, env, n, i); }
    }
  }

  lemma {:induction false} SymIsNoHeading(cfg: Config, prefix: string, env: Env, n: Node, i: nat)
    requires n.SymNode?
    ensures !HeadingOff(cfg, prefix, env, n, i)
  {
  }

  lemma {:induction false} OffNothing(cfg: Config, prefix: string, off: set<nat>)
    ensures OffAfter(cfg, prefix, off, []) == off
  {
  }

  /**
    Writing the full configuration and loading it back changes nothing, exactly if no heading that is
    written behind a symbol reads as "is not set" of it while it is a plain bool that is visible, y and
    not selected. The header does not matter: every such symbol has its entry behind it.
    */
  lemma {:induction false} FullConfigRoundTrip(cfg: Config, prefix: string, u: User, header: seq<string>, nodes: seq<Node>)
    requires State(cfg, u) && Named(cfg, prefix) && OneLineValues(cfg, Values(cfg, u), true)
    requires IsHeader(header) && PlainTitles(nodes)
    requires forall i: nat :: SymNode(i) in nodes <==> i < |cfg.items| && cfg.At(i).Symbol?
    ensures var env := Values(cfg, u);
            var text := HeaderText(header) + OutText(cfg, prefix, env, FullOuts(cfg, env, nodes, {}, false));
            var u' := LoadReplace(cfg, prefix, u, text);
            ValidUser(cfg, u') && (Values(cfg, u') == env <==> !exists i, j, k :: Overruled(cfg, prefix, env, nodes, i, j, k))
  {
    hide Values, FullOuts, OutText, OffAfter, LoadReplace, Overruled;
    var env := Values(cfg, u);
    var outs := FullOuts(cfg, env, nodes, {}, false);
    FullGood(cfg, prefix, u, nodes);
    FullOutsAre(cfg, env, nodes, {}, false);
    WithHeader(cfg, prefix, env, header, outs);
    var all := Notes(header) + outs;
    LoadWritten(cfg, prefix, u, all);
    var em, off := Entries(all), OffAfter(cfg, prefix, {}, all);
    forall i | 0 <= i < |cfg.items| && cfg.At(i).Symbol? ensures i in em <==> WrittenToConf(cfg, env, i) {
      assert i in em <==> Entry(i) in outs;
    }
    FullSufficient(cfg, u, em);
    OffAreBools(cfg, prefix, {}, all);
    ReloadKeepsExactly(cfg, u, LoadReplace(cfg, prefix, u, OutText(cfg, prefix, env, all)), em, off);
    FragileOff(cfg, prefix, u, header, nodes);
  }

  lemma {:induction false} FragileOff(cfg: Config, prefix: string, u: User, header: seq<string>, nodes: seq<Node>)
    requires State(cfg, u) && Named(cfg, prefix)
    requires forall i: nat :: SymNode(i) in nodes <==> i < |cfg.items| && cfg.At(i).Symbol?
    ensures var env := Values(cfg, u);
            var off := OffAfter(cfg, prefix, {}, Notes(header) + FullOuts(cfg, env, nodes, {}, false));
            (exists i :: i in off && Fragile(cfg, env, i)) <==>
            (exists i, j, k :: Overruled(cfg, prefix, env, nodes, i, j, k))
  {
    hide Values, FullOuts, OffAfter, OffBehind;
    var env := Values(cfg, u);
    var outs, start := FullOuts(cfg, env, nodes, {}, false), OffAfter(cfg, prefix, {}, Notes(header));
    var off := OffAfter(cfg, prefix, {}, Notes(header) + outs);
    OffConcat(cfg, prefix, {}, Notes(header), outs);
    forall i: nat | Fragile(cfg, env, i)
      ensures i in off <==> exists j, k :: OffBehind(cfg, prefix, env, nodes, i, j, k)
    {
      FragileWritten(cfg, env, i);
      FullOff(cfg, prefix, env, start, nodes, {}, false, i);
    }
    if i :| i in off && Fragile(cfg, env, i) {
      var j, k :| OffBehind(cfg, prefix, env, nodes, i, j, k);
      assert Overruled(cfg, prefix, env, nodes, i, j, k);
    }
    if i, j, k :| Overruled(cfg, prefix, env, nodes, i, j, k) {
      assert i in off && Fragile(cfg, env, i);
    }
  }

  lemma {:induction false} FullGood(cfg: Config, prefix: string, u: User, nodes: seq<Node>)
    requires State(cfg, u) && OneLineValues(cfg, Values(cfg, u), true) && PlainTitles(nodes)
    requires forall i: nat :: SymNode(i) in nodes ==> i < |cfg.items| && cfg.At(i).Symbol?
    ensures forall o :: o in FullOuts(cfg, Values(cfg, u), nodes, {}, false) ==> GoodOut(cfg, prefix, Values(cfg, u), o)
  {
    var env := Values(cfg, u);
    var outs := FullOuts(cfg, env, nodes, {}, false);
    FullOutsAre(cfg, env, nodes, {}, false);
    FullNotes(cfg, prefix, env, nodes, {}, false);
    forall o | o in outs ensures GoodOut(cfg, prefix, env, o) {
      if o.Entry? {
        assert Entry(o.sym) in outs && SymNode(o.sym) in nodes;
        NotM(cfg, u, o.sym);
        ValuesAt(cfg, u, o.sym);
      }
    }
  }

  // ---------------------------------------------------------------------------------------------
  // Comments that overrule a symbol

  /** n, y, and a bool A with a prompt that is y by default; MODULES is undefined. */
  function ExampleConfig(): Config {
    var n, y := Ref(0), Ref(1);
    Config([Const("n", Bool, 0), Const("y", Bool, 2), Symbol("A", Bool, [y], [Default(y, y)], [], n, n, y, None, false)],
           0, [0, 0, 1])
  }

  const EXAMPLE_USER: User := [UNSET, UNSET, UNSET]

  const EXAMPLE_VALUES: Env := [Val(0, 0, "n", None), Val(0, 2, "y", None), Val(2, 2, "y", None)]

  /** A, followed by a comment with an unfortunate text. */
  const EXAMPLE_NODES := [SymNode(2), Heading("CONFIG_A is not set", Ref(1))]

  lemma {:induction false} ExampleWellFormed()
    ensures WellFormed(ExampleConfig())
  {
    var cfg := ExampleConfig();
    assert SymbolBelow(cfg, 2);
    assert ItemWellFormed(cfg, 0) && ItemWellFormed(cfg, 1) && ItemWellFormed(cfg, 2);
  }

  lemma {:induction false} ExampleMFree()
    ensures MFree(ExampleConfig())
  {
    var cfg := ExampleConfig();
    assert MFreeItem(cfg, 0) && MFreeItem(cfg, 1) && MFreeItem(cfg, 2);
  }

  lemma {:induction false} ExampleValues()
    ensures Solves(ExampleConfig(), EXAMPLE_USER, EXAMPLE_VALUES)
  {
    var cfg, env := ExampleConfig(), EXAMPLE_VALUES;
    assert MaxValue(cfg, env, []) == 0 && [Ref(1)][..0] == [];
    assert MaxValue(cfg, env, [Ref(1)]) == 2;
    forall i: nat | i < 3 ensures env[i] == Equation(cfg, EXAMPLE_USER, env, i) {
      assert i == 0 || i == 1 || i == 2;
    }
    assert env == Step(cfg, EXAMPLE_USER, env);
  }

  /** A state of the kind the round trips are about, in which A is visible, y and at its default. */
  lemma {:induction false} ExampleState()
    ensures var cfg, u := ExampleConfig(), EXAMPLE_USER;
      && State(cfg, u) && Named(cfg, "CONFIG_") && Values(cfg, u) == EXAMPLE_VALUES
      && Fragile(cfg, EXAMPLE_VALUES, 2) && !InMinConfig(cfg, EXAMPLE_VALUES, 2)
      && SwitchedOff(cfg, "CONFIG_", "# CONFIG_A is not set") == Some(2)
  {
    hide WellFormed, MFree, SwitchedOff, Solves, Values;
    var cfg := ExampleConfig();
    ExampleWellFormed();
    ExampleMFree();
    ExampleValues();
    SolutionIs(cfg, EXAMPLE_USER, EXAMPLE_VALUES);
    UnsetTitleSwitchesOff(cfg, "CONFIG_", 2);
    assert "# " + ("CONFIG_" + cfg.At(2).name + " is not set") == "# CONFIG_A is not set";
  }

  /** With a comment behind A, loading the full configuration back does change a value. */
  lemma {:induction false} FullConfigNotFixed()
    ensures var cfg, u := ExampleConfig(), EXAMPLE_USER;
      && State(cfg, u) && Named(cfg, "CONFIG_")
      && var env := Values(cfg, u);
         var u' := LoadReplace(cfg, "CONFIG_", u, OutText(cfg, "CONFIG_", env, FullOuts(cfg, env, EXAMPLE_NODES, {}, false)));
         ValidUser(cfg, u') && Values(cfg, u') != env
  {
    hide Values, State, FullOuts, OutText, LoadReplace, Overruled, PlainTitles, Named, OneLineValues, Fragile, SwitchedOff, InMinConfig;
    var cfg, u, nodes := ExampleConfig(), EXAMPLE_USER, EXAMPLE_NODES;
    ExampleState();
    StateParts(cfg, u);
    ExampleOverruled();
    FullConfigRoundTrip(cfg, "CONFIG_", u, [], nodes);
    var text := OutText(cfg, "CONFIG_", Values(cfg, u), FullOuts(cfg, Values(cfg, u), nodes, {}, false));
    assert HeaderText([]) + text == text;
  }

  lemma {:induction false} ExampleOverruled()
    ensures Overruled(ExampleConfig(), "CONFIG_", EXAMPLE_VALUES, EXAMPLE_NODES, 2, 0, 1)
    ensures forall i: nat :: SymNode(i) in EXAMPLE_NODES <==> i < 3 && ExampleConfig().At(i).Symbol?
    ensures PlainTitles(EXAMPLE_NODES) && OneLineValues(ExampleConfig(), EXAMPLE_VALUES, true)
  {
    hide State, Values, SwitchedOff, Fragile, InMinConfig;
    ExampleState();
    assert "# " + "CONFIG_A is not set" == "# CONFIG_A is not set";
  }

  /** So does the minimal configuration under a header that names A. */
  lemma {:induction false} MinConfigNotFixed()
    ensures var cfg, u := ExampleConfig(), EXAMPLE_USER;
      && State(cfg, u) && Named(cfg, "CONFIG_")
      && var env, header := Values(cfg, u), ["# CONFIG_A is not set"];
         var u' := LoadReplace(cfg, "CONFIG_", u, HeaderText(header) + MinContents(cfg, "CONFIG_", env, 0));
         ValidUser(cfg, u') && Values(cfg, u') != env
  {
    hide Values, State, MinContents, LoadReplace, Fragile, SwitchedOff, InMinConfig;
    var cfg, u, header := ExampleConfig(), EXAMPLE_USER, ["# CONFIG_A is not set"];
    ExampleState();
    StateParts(cfg, u);
    assert HeaderOverrules(cfg, "CONFIG_", Values(cfg, u), header, 2, 0);
    MinConfigRoundTrip(cfg, "CONFIG_", u, header);
  }

  lemma {:induction false} FirstNode(cfg: Config, env: Env, n: Node, rest: seq<Node>, seen: set<nat>, afterEnd: bool)
    ensures FullOuts(cfg, env, [n] + rest, seen, afterEnd) ==
            NodeOuts(cfg, env, n, seen, afterEnd)
            + FullOuts(cfg, env, rest, NodeSeen(n, seen), NodeAfterEnd(cfg, env, n, seen, afterEnd))
  {
    assert ([n] + rest)[1..] == rest;
  }

  lemma {:induction false} FirstOut(cfg: Config, prefix: string, env: Env, o: Out, rest: seq<Out>)
    ensures OutText(cfg, prefix, env, [o] + rest) == OutLine(cfg, prefix, env, o) + "\n" + OutText(cfg, prefix, env, rest)
  {
    assert ([o] + rest)[1..] == rest;
  }

  /** A visible menu, its end, A on two menu nodes, and a hidden menu. */
  const EXAMPLE_MENUS := [Heading("Net", Ref(1)), EndOfMenu("Net", Ref(1)), SymNode(2), SymNode(2), Heading("Old", Ref(0)), EndOfMenu("Old", Ref(0))]

  lemma {:induction false} ExampleOuts()
    ensures FullOuts(ExampleConfig(), EXAMPLE_VALUES, EXAMPLE_MENUS, {}, false) ==
            [Note(""), Note("#"), Note("# Net"), Note("#"), Note("# end of Net"), Note(""), Entry(2)]
  {
    var cfg, env, m := ExampleConfig(), EXAMPLE_VALUES, EXAMPLE_MENUS;
    assert WrittenToConf(cfg, env, 2) && ExprValue(cfg, env, Ref(1)) == 2 && ExprValue(cfg, env, Ref(0)) == 0;
    assert "# " + "Net" == "# Net" && "# end of " + "Net" == "# end of Net";
    assert {} + {2} == {2} && {2} + {2} == {2};
    hide WrittenToConf, ExprValue, FullOuts;
    assert m == [m[0]] + ([m[1]] + ([m[2]] + ([m[3]] + ([m[4]] + ([m[5]] + [])))));
    FirstNode(cfg, env, m[0], [m[1]] + ([m[2]] + ([m[3]] + ([m[4]] + ([m[5]] + [])))), {}, false);
    FirstNode(cfg, env, m[1], [m[2]] + ([m[3]] + ([m[4]] + ([m[5]] + []))), {}, false);
    FirstNode(cfg, env, m[2], [m[3]] + ([m[4]] + ([m[5]] + [])), {}, true);
    FirstNode(cfg, env, m[3], [m[4]] + ([m[5]] + []), {2}, false);
    FirstNode(cfg, env, m[4], [m[5]] + [], {2}, false);
    FirstNode(cfg, env, m[5], [], {2}, false);
    NoNodes(cfg, env);
  }

  lemma {:induction false} NoNodes(cfg: Config, env: Env)
    ensures FullOuts(cfg, env, [], {2}, false) == [] && OutText(cfg, "CONFIG_", env, []) == ""
  {
  }

  const NET_TOP: seq<Out> := [Note(""), Note("#"), Note("# Net"), Note("#")]
  const NET_REST: seq<Out> := [Note("# end of Net"), Note(""), Entry(2)]

  lemma {:induction false} TopText(cfg: Config, env: Env)
    ensures OutText(cfg, "CONFIG_", env, NET_TOP) == "\n#\n# Net\n#\n"
  {
    hide OutText;
    NoNodes(cfg, env);
    FirstOut(cfg, "CONFIG_", env, Note("#"), []);
    FirstOut(cfg, "CONFIG_", env, Note("# Net"), [Note("#")] + []);
    FirstOut(cfg, "CONFIG_", env, Note("#"), [Note("# Net")] + ([Note("#")] + []));
    FirstOut(cfg, "CONFIG_", env, Note(""), [Note("#")] + ([Note("# Net")] + ([Note("#")] + [])));
    assert NET_TOP == [Note("")] + ([Note("#")] + ([Note("# Net")] + ([Note("#")] + [])));
  }

  lemma {:induction false} RestText()
    ensures OutText(ExampleConfig(), "CONFIG_", EXAMPLE_VALUES, NET_REST) == "# end of Net\n\nCONFIG_A=y\n"
  {
    var cfg, env := ExampleConfig(), EXAMPLE_VALUES;
    assert EntryLine(cfg, "CONFIG_", env, 2) == "CONFIG_A=y";
    assert OutLine(cfg, "CONFIG_", env, Entry(2)) == "CONFIG_A=y";
    hide OutText, EntryLine, ExampleConfig, EXAMPLE_VALUES;
    NoNodes(cfg, env);
    FirstOut(cfg, "CONFIG_", env, Entry(2), []);
    FirstOut(cfg, "CONFIG_", env, Note(""), [Entry(2)] + []);
    FirstOut(cfg, "CONFIG_", env, Note("# end of Net"), [Note("")] + ([Entry(2)] + []));
    assert NET_REST == [Note("# end of Net")] + ([Note("")] + ([Entry(2)] + []));
  }

  /** The whole file: headings, the end of the menu, a blank line and one entry, and nothing about the hidden menu. */
  lemma {:induction false} ExampleText()
    ensures var cfg, env := ExampleConfig(), EXAMPLE_VALUES;
      OutText(cfg, "CONFIG_", env, FullOuts(cfg, env, EXAMPLE_MENUS, {}, false)) ==
      "\n#\n# Net\n#\n" + "# end of Net\n\nCONFIG_A=y\n"
  {
    hide FullOuts, OutText, ExampleConfig, EXAMPLE_VALUES;
    var cfg, env := ExampleConfig(), EXAMPLE_VALUES;
    ExampleOuts();
    TopText(cfg, env);
    RestText();
    OutTextConcat(cfg, "CONFIG_", env, NET_TOP, NET_REST);
    assert FullOuts(cfg, env, EXAMPLE_MENUS, {}, false) == NET_TOP + NET_REST;
  }

  lemma {:induction false} StateParts(cfg: Config, u: User)
    requires State(cfg, u)
    ensures WellFormed(cfg) && ValidUser(cfg, u)
  {
  }
}
