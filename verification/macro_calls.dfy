/** What a macro call in a text expands to: which text its arguments are, and where its value comes from. */
module MacroCalls {
  import opened Basics
  import opened Numbers
  import opened Macros

  /** Text without parentheses and commas. */
  predicate Plain(s: string) { forall i :: 0 <= i < |s| ==> s[i] != '(' && s[i] != ')' && s[i] != ',' }

  /** The rest of a call behind the name or an argument: the further arguments and the end. */
  function Tail(args: seq<string>): string { if args == [] then ")" else "," + args[0] + Tail(args[1..]) }

  /** `$(name,arg1,...,argn)` */
  function CallText(name: string, args: seq<string>): string { "$(" + name + Tail(args) }

  // ---------------------------------------------------------------------------------------------
  // Reading a call

  lemma {:induction false} SpecialBehind(a: string, b: string)
    requires Plain(a) && b != [] && (b[0] == ')' || b[0] == ',')
    ensures FindSpecial(a + b) == |a|
  {
    var n := FindSpecial(a + b);
    assert SpecialAt(a + b, |a|);
    forall j | 0 <= j < |a| ensures !SpecialAt(a + b, j) {}
  }

  lemma {:induction false} Behind(a: string, x: string, b: string)
    ensures (a + x + b)[|a| + |x|..] == b && (a + x + b)[..|a|] == a
    ensures |x| == 1 ==> (a + x + b)[|a|] == x[0]
  {
  }

  /** The pieces between commas are the arguments. */
  lemma {:induction false} ArgsRead(c: Context, counts: seq<nat>, a: string, args: seq<string>, done: seq<string>,
                                    outer: seq<string>, rest: string)
    requires |counts| == |c.vars| && Plain(a) && forall s :: s in args ==> Plain(s)
    ensures var v := Value(c, counts, done + [a] + args, outer);
            Call(c, counts, a + Tail(args) + rest, outer, "", done, 0)
            == if v.None? then None else Some(Expanded(v.value, rest))
    decreases |args|
  {
    hide Call, Value, FindSpecial;
    var t := a + Tail(args) + rest;
    CallUnfolds(c, counts, t, outer, "", done, 0);
    assert "" + a == a;
    if args == [] {
      assert t == a + ")" + rest && t == a + (")" + rest);
      SpecialBehind(a, ")" + rest);
      Behind(a, ")", rest);
      assert done + [a] + args == done + [a];
    } else {
      var next := args[0] + Tail(args[1..]) + rest;
      assert t == a + "," + next && t == a + ("," + next);
      SpecialBehind(a, "," + next);
      Behind(a, ",", next);
      ArgsRead(c, counts, args[0], args[1..], done + [a], outer, rest);
      assert done + [a] + [args[0]] + args[1..] == done + [a] + args;
    }
  }

  /** Commas inside parentheses do not separate arguments. */
  lemma {:induction false} ParensRead(c: Context, counts: seq<nat>, p: string, z: string, outer: seq<string>, cur: string, done: seq<string>)
    requires |counts| == |c.vars| && forall i :: 0 <= i < |p| ==> p[i] != '(' && p[i] != ')'
    ensures Call(c, counts, p + ")" + z, outer, cur, done, 1) == Call(c, counts, z, outer, cur + p + ")", done, 0)
    decreases |p|
  {
    hide Call, FindSpecial;
    var t := p + ")" + z;
    CallUnfolds(c, counts, t, outer, cur, done, 1);
    var k := FindSpecial(t);
    assert SpecialAt(t, |p|) && k <= |p|;
    if k == |p| {
      assert t[k] == ')' && t[k + 1..] == z && t[..k + 1] == p + ")";
      assert cur + (p + ")") == cur + p + ")";
    } else {
      assert SpecialAt(t, k) && t[k] == p[k];
      var q := p[k + 1..];
      assert t[k + 1..] == q + ")" + z && t[..k + 1] == p[..k + 1];
      ParensRead(c, counts, q, z, outer, cur + p[..k + 1], done);
      assert p == p[..k + 1] + q;
      assert cur + p[..k + 1] + q + ")" == cur + p + ")";
    }
  }

  lemma {:induction false} OpenRead(c: Context, counts: seq<nat>, x: string, z: string, outer: seq<string>, cur: string, done: seq<string>)
    requires |counts| == |c.vars| && Plain(x) && !(x != [] && x[|x| - 1] == '$')
    ensures Call(c, counts, x + "(" + z, outer, cur, done, 0) == Call(c, counts, z, outer, cur + x + "(", done, 1)
  {
    hide Call, FindSpecial;
    var t := x + "(" + z;
    CallUnfolds(c, counts, t, outer, cur, done, 0);
    assert SpecialAt(t, |x|);
    forall j | 0 <= j < |x| ensures !SpecialAt(t, j) {}
    assert FindSpecial(t) == |x|;
    assert t[|x|] == '(' && t[|x| + 1..] == z && t[..|x| + 1] == x + "(";
    assert cur + (x + "(") == cur + x + "(";
  }

  lemma {:induction false} EndRead(c: Context, counts: seq<nat>, y: string, outer: seq<string>, cur: string, done: seq<string>)
    requires |counts| == |c.vars| && Plain(y)
    ensures var v := Value(c, counts, done + [cur + y], outer);
            Call(c, counts, y + ")", outer, cur, done, 0) == if v.None? then None else Some(Expanded(v.value, ""))
  {
    hide Call, Value, FindSpecial;
    CallUnfolds(c, counts, y + ")", outer, cur, done, 0);
    SpecialBehind(y, ")");
    Behind(y, ")", "");
    assert y + ")" + "" == y + ")";
  }

  /** A call inside an argument is replaced by its value, and what follows is read on. */
  lemma {:induction false} NestedRead(c: Context, counts: seq<nat>, name: string, args: seq<string>, z: string,
                                      outer: seq<string>, cur: string, done: seq<string>)
    requires |counts| == |c.vars| && Plain(name) && forall s :: s in args ==> Plain(s)
    ensures var v := Value(c, counts, [name] + args, outer);
            Call(c, counts, CallText(name, args) + z, outer, cur, done, 0)
            == if v.None? then None else Call(c, counts, z, outer, cur + v.value, done, 0)
  {
    hide Call, Value, FindSpecial;
    var inner := name + Tail(args);
    var t := CallText(name, args) + z;
    assert t == "$(" + (inner + z) && MacroAt(t, 0) && t[2..] == inner + z;
    assert SpecialAt(t, 0) && FindSpecial(t) == 0;
    CallUnfolds(c, counts, t, outer, cur, done, 0);
    ArgsRead(c, counts, name, args, [], outer, z);
    assert inner + z == name + Tail(args) + z && [] + [name] + args == [name] + args;
    assert cur + t[..0] == cur;
  }

  /** A text that is one call expands to the value of the call. */
  lemma {:induction false} WholeCall(c: Context, counts: seq<nat>, name: string, args: seq<string>, outer: seq<string>)
    requires |counts| == |c.vars| && Plain(name) && forall s :: s in args ==> Plain(s)
    ensures Whole(c, counts, CallText(name, args), outer) == Value(c, counts, [name] + args, outer)
  {
    hide Call, Value, FindMacro, Whole;
    var t := CallText(name, args);
    var inner := name + Tail(args);
    assert t == "$(" + inner && MacroAt(t, 0) && t[2..] == inner;
    assert FindMacro(t) == 0;
    WholeUnfolds(c, counts, t, outer);
    ArgsRead(c, counts, name, args, [], outer, "");
    assert inner + "" == inner && [] + [name] + args == [name] + args;
    WholeUnfolds(c, counts, "", outer);
    var v := Value(c, counts, [name] + args, outer);
    if v.Some? { assert t[..0] + v.value == v.value; assert v.value + "" == v.value; }
  }

  /** Text without macros stays as it is. */
  lemma {:induction false} NoMacros(c: Context, counts: seq<nat>, t: string, outer: seq<string>)
    requires |counts| == |c.vars| && forall k :: 0 <= k < |t| ==> !MacroAt(t, k)
    ensures Whole(c, counts, t, outer) == Some(t)
  {
    hide Call;
    assert FindMacro(t) == |t|;
  }

  // ---------------------------------------------------------------------------------------------
  // Where the value comes from

  /** The name does not number an argument of the enclosing call. */
  predicate NotNumber(name: string, outer: seq<string>) { Numbered(name, outer).None? }

  predicate IsVariable(c: Context, k: nat, name: string) { k < |c.vars| && Find(c.vars, name) == k }

  /**
    `$(k)` in the text of a variable stands for argument k of the call that expands it, and for the name
    of the variable if k is 0.
    */
  lemma {:induction false} ArgumentsAreNumbered(c: Context, counts: seq<nat>, f: nat, name: string, args: seq<string>, k: nat)
    requires |counts| == |c.vars| && IsVariable(c, f, name) && Plain(name) && forall s :: s in args ==> Plain(s)
    requires if args == [] then counts[f] == 0 else counts[f] <= MOST
    requires c.vars[f].value == CallText(Digits(k, 10), []) && k <= |args|
    ensures Whole(c, counts, CallText(name, args), []) == Some(if k == 0 then name else args[k - 1])
  {
    hide Whole, Digits, Find;
    WholeCall(c, counts, name, args, []);
    NoArgs(name);
    var call, deeper := [name] + args, counts[f := counts[f] + 1];
    AllowanceSpent(counts, f);
    assert Value(c, counts, call, []) == Whole(c, deeper, c.vars[f].value, call);
    DigitsArePlain(k);
    WholeCall(c, deeper, Digits(k, 10), [], call);
    assert [Digits(k, 10)] + [] == [Digits(k, 10)];
    DigitsNumber(k, call);
  }

  lemma {:induction false} NoArgs(name: string)
    ensures Numbered(name, []) == None
  {
  }

  lemma {:induction false} DigitsArePlain(k: nat)
    ensures Plain(Digits(k, 10)) && forall i :: 0 <= i < |Digits(k, 10)| ==> !IsSpace(Digits(k, 10)[i])
    decreases k
  {
    if k >= 10 { DigitsArePlain(k / 10); }
  }

  lemma {:induction false} DigitsNumber(k: nat, call: seq<string>)
    requires k < |call|
    ensures Numbered(Digits(k, 10), call) == Some(call[k])
  {
    hide Digits;
    DigitsArePlain(k);
    DigitsRoundTrip(k, 10);
    assert Strip(Digits(k, 10)) == Digits(k, 10);
  }

  /** A variable without parameters stands for its text; expanding it inside itself is an error. */
  lemma {:induction false} VariableExpands(c: Context, counts: seq<nat>, f: nat, name: string, outer: seq<string>)
    requires |counts| == |c.vars| && IsVariable(c, f, name) && Plain(name) && NotNumber(name, outer)
    ensures counts[f] > 0 ==> Whole(c, counts, CallText(name, []), outer) == None
    ensures counts[f] == 0 && (forall k :: 0 <= k < |c.vars[f].value| ==> !MacroAt(c.vars[f].value, k)) ==>
              Whole(c, counts, CallText(name, []), outer) == Some(c.vars[f].value)
  {
    hide Whole, Find;
    WholeCall(c, counts, name, [], outer);
    assert [name] + [] == [name];
    if counts[f] == 0 && forall k :: 0 <= k < |c.vars[f].value| ==> !MacroAt(c.vars[f].value, k) {
      AllowanceSpent(counts, f);
      NoMacros(c, counts[f := 1], c.vars[f].value, [name]);
    }
  }

  /** A name that is no variable is a function, called with its own name and its arguments, if their number fits. */
  lemma {:induction false} FunctionExpands(c: Context, counts: seq<nat>, name: string, args: seq<string>, outer: seq<string>)
    requires |counts| == |c.vars| && Find(c.vars, name) == |c.vars| && name in c.functions
    requires Plain(name) && NotNumber(name, outer) && forall s :: s in args ==> Plain(s)
    ensures var fn := c.functions[name];
      var fits := fn.minArgs <= |args| && (fn.maxArgs.Some? ==> |args| <= fn.maxArgs.value);
      Whole(c, counts, CallText(name, args), outer) == if fits then fn.call([name] + args) else None
  {
    hide Whole, Find;
    WholeCall(c, counts, name, args, outer);
  }

  /** Any other name is looked up in the environment, and is empty if it is not there. */
  lemma {:induction false} EnvironmentExpands(c: Context, counts: seq<nat>, name: string, args: seq<string>, outer: seq<string>)
    requires |counts| == |c.vars| && Find(c.vars, name) == |c.vars| && name !in c.functions
    requires Plain(name) && NotNumber(name, outer) && forall s :: s in args ==> Plain(s)
    ensures Whole(c, counts, CallText(name, args), outer) == Some(if name in c.environ then c.environ[name] else "")
  {
    hide Whole, Find;
    WholeCall(c, counts, name, args, outer);
  }

  // ---------------------------------------------------------------------------------------------
  // Arguments that are not plain text

  /** A variable that stands for its first argument. */
  predicate IsFirst(c: Context, counts: seq<nat>, f: nat, name: string) {
    IsVariable(c, f, name) && Plain(name) && |counts| == |c.vars| && counts[f] <= MOST && c.vars[f].value == "$(1)"
  }

  lemma {:induction false} FirstIs(c: Context, counts: seq<nat>, f: nat, name: string, a: string)
    requires IsFirst(c, counts, f, name)
    ensures Value(c, counts, [name, a], []) == Some(a)
  {
    hide Whole, Find;
    NoArgs(name);
    AllowanceSpent(counts, f);
    var deeper := counts[f := counts[f] + 1];
    assert "$(1)" == CallText("1", []) by { assert Tail([]) == ")"; }
    WholeCall(c, deeper, "1", [], [name, a]);
    assert ["1"] + [] == ["1"];
    OneIsOne();
    DigitsNumber(1, [name, a]);
  }

  lemma {:induction false} OneIsOne()
    ensures Digits(1, 10) == "1"
  {
  }

  /** The text of a call with one argument, whatever the argument looks like. */
  lemma {:induction false} CallStarts(c: Context, counts: seq<nat>, name: string, a: string)
    requires |counts| == |c.vars| && Plain(name)
    ensures var r := Call(c, counts, a + ")", [], "", [name], 0);
            r.Some? && r.value.rest == "" ==> Whole(c, counts, "$(" + name + "," + a + ")", []) == Some(r.value.value)
  {
    hide Call, FindMacro, Whole, FindSpecial;
    var t, inner := "$(" + name + "," + a + ")", name + ("," + (a + ")"));
    assert t == "$(" + inner && MacroAt(t, 0) && t[2..] == inner && FindMacro(t) == 0;
    WholeUnfolds(c, counts, t, []);
    CallUnfolds(c, counts, inner, [], "", [], 0);
    SpecialBehind(name, "," + (a + ")"));
    assert inner == name + "," + (a + ")");
    Behind(name, ",", a + ")");
    assert "" + name == name && [] + [name] == [name];
    WholeUnfolds(c, counts, "", []);
    var r := Call(c, counts, a + ")", [], "", [name], 0);
    if r.Some? { assert t[..0] + r.value.value == r.value.value; assert r.value.value + "" == r.value.value; }
  }

  /** An argument may contain commas within parentheses. */
  lemma {:induction false} ParensKeepCommas(c: Context, counts: seq<nat>, f: nat, name: string, x: string, p: string, y: string)
    requires IsFirst(c, counts, f, name) && Plain(x) && !(x != [] && x[|x| - 1] == '$') && Plain(y)
    requires forall i :: 0 <= i < |p| ==> p[i] != '(' && p[i] != ')'
    ensures var a := x + "(" + p + ")" + y; Whole(c, counts, "$(" + name + "," + a + ")", []) == Some(a)
  {
    hide Call, Whole, Value, IsFirst;
    var a := x + "(" + p + ")" + y;
    assert |counts| == |c.vars| && Plain(name) by { FirstParts(c, counts, f, name); }
    var behind := p + ")" + (y + ")");
    assert a + ")" == x + "(" + behind;
    OpenRead(c, counts, x, behind, [], "", [name]);
    assert "" + x + "(" == x + "(";
    ParensRead(c, counts, p, y + ")", [], x + "(", [name]);
    EndRead(c, counts, y, [], x + "(" + p + ")", [name]);
    assert [name] + [a] == [name, a];
    FirstIs(c, counts, f, name, a);
    CallStarts(c, counts, name, a);
  }

  /** A call as an argument is expanded before it is passed on. */
  lemma {:induction false} ArgumentsExpandFirst(c: Context, counts: seq<nat>, f: nat, name: string, g: string, gs: seq<string>)
    requires IsFirst(c, counts, f, name) && Plain(g) && (forall s :: s in gs ==> Plain(s))
    requires Whole(c, counts, CallText(g, gs), []).Some?
    ensures Whole(c, counts, "$(" + name + "," + CallText(g, gs) + ")", []) == Whole(c, counts, CallText(g, gs), [])
  {
    hide Call, Whole, Value, IsFirst;
    assert |counts| == |c.vars| && Plain(name) by { FirstParts(c, counts, f, name); }
    WholeCall(c, counts, g, gs, []);
    var v := Value(c, counts, [g] + gs, []).value;
    NestedRead(c, counts, g, gs, ")", [], "", [name]);
    assert "" + v == v && "" + ")" == ")";
    EndRead(c, counts, "", [], v, [name]);
    assert v + "" == v && [name] + [v] == [name, v];
    FirstIs(c, counts, f, name, v);
    CallStarts(c, counts, name, CallText(g, gs));
  }

  lemma {:induction false} FirstParts(c: Context, counts: seq<nat>, f: nat, name: string)
    requires IsFirst(c, counts, f, name)
    ensures |counts| == |c.vars| && Plain(name)
  {
  }

  // ---------------------------------------------------------------------------------------------
  // Recursion

  /** With arguments, a variable may be expanded inside itself, but not more than 100 levels deep. */
  lemma {:induction false} DepthLimit(c: Context, counts: seq<nat>, f: nat, name: string, args: seq<string>, outer: seq<string>)
    requires |counts| == |c.vars| && IsVariable(c, f, name) && Plain(name) && NotNumber(name, outer)
    requires args != [] && (forall s :: s in args ==> Plain(s)) && forall k :: 0 <= k < |c.vars[f].value| ==> !MacroAt(c.vars[f].value, k)
    ensures Whole(c, counts, CallText(name, args), outer) == if counts[f] > 100 then None else Some(c.vars[f].value)
  {
    hide Whole, Find;
    WholeCall(c, counts, name, args, outer);
    if counts[f] <= 100 {
      AllowanceSpent(counts, f);
      NoMacros(c, counts[f := counts[f] + 1], c.vars[f].value, [name] + args);
    }
  }

  /** A variable that does nothing but call itself ends in an error, at whatever depth it starts. */
  lemma {:induction false} RunawayRefused(c: Context, counts: seq<nat>, f: nat, name: string, args: seq<string>, outer: seq<string>)
    requires |counts| == |c.vars| && IsVariable(c, f, name) && Plain(name) && ParseInt(Strip(name), 10).None?
    requires (forall s :: s in args ==> Plain(s)) && c.vars[f].value == CallText(name, args)
    ensures Whole(c, counts, CallText(name, args), outer) == None
    decreases Allowance(counts)
  {
    hide Whole, Find, Strip, ParseInt;
    WholeCall(c, counts, name, args, outer);
    if counts[f] <= MOST {
      AllowanceSpent(counts, f);
      RunawayRefused(c, counts[f := counts[f] + 1], f, name, args, [name] + args);
    }
  }
}
