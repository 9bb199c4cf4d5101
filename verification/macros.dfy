/**
  Preprocessor macros. `Whole` and `Call` say what a text expands to, reading every character of it
  once; the methods do the same in place, by splicing values into the text and going on behind them.
  That all of them terminate rests on the number of expansions each variable has left, and then on
  the text still to be read.
  */
module Macros {
  import opened Basics
  import opened Numbers

  datatype Variable = Variable(name: string, value: string)

  /** A function with its argument limits; functions are total. */
  datatype Function = Function(call: seq<string> -> Option<string>, minArgs: nat, maxArgs: Option<nat>)

  /** Variables have distinct names. `environ` holds the environment variables. */
  datatype Context = Context(vars: seq<Variable>, functions: map<string, Function>, environ: map<string, string>)

  function Find(vars: seq<Variable>, name: string): (k: nat)
    ensures k <= |vars| && (k < |vars| ==> vars[k].name == name)
  {
    if vars == [] || vars[0].name == name then 0 else 1 + Find(vars[1..], name)
  }

  const MOST := 100

  /** How many more expansions the variables have, given how many are under way. */
  ghost function Allowance(counts: seq<nat>): nat {
    if counts == [] then 0
    else Allowance(counts[..|counts| - 1]) + (var n := counts[|counts| - 1]; if n > MOST then 0 else MOST + 1 - n)
  }

  lemma {:induction false} AllowanceSpent(counts: seq<nat>, k: nat)
    requires k < |counts| && counts[k] <= MOST
    ensures Allowance(counts[k := counts[k] + 1]) == Allowance(counts) - 1
  {
    var n := |counts| - 1;
    var after := counts[k := counts[k] + 1];
    if k < n {
      assert after[..n] == counts[..n][k := counts[k] + 1];
      AllowanceSpent(counts[..n], k);
    } else {
      assert after[..n] == counts[..n];
    }
  }

  // ---------------------------------------------------------------------------------------------
  // What a text expands to

  predicate MacroAt(t: string, k: nat) { k + 1 < |t| && t[k] == '$' && t[k + 1] == '(' }

  /** The first "$(", or the length of the text. */
  function FindMacro(t: string): (k: nat)
    ensures k <= |t| && (k < |t| ==> MacroAt(t, k)) && forall j :: 0 <= j < k ==> !MacroAt(t, j)
  {
    if t == [] || MacroAt(t, 0) then 0
    else
      assert forall j :: 0 < j <= |t| ==> (MacroAt(t, j) <==> MacroAt(t[1..], j - 1));
      1 + FindMacro(t[1..])
  }

  predicate SpecialAt(t: string, k: nat) { k < |t| && (t[k] == '(' || t[k] == ')' || t[k] == ',' || MacroAt(t, k)) }

  /** The first character that matters inside a macro, or the length of the text. */
  function FindSpecial(t: string): (k: nat)
    ensures k <= |t| && (k < |t| ==> SpecialAt(t, k)) && forall j :: 0 <= j < k ==> !SpecialAt(t, j)
  {
    if t == [] || SpecialAt(t, 0) then 0
    else
      assert forall j :: 0 < j <= |t| ==> (SpecialAt(t, j) <==> SpecialAt(t[1..], j - 1));
      1 + FindSpecial(t[1..])
  }

  /** A value and the text behind the call that gave it. */
  datatype Expanded = Expanded(value: string, rest: string)

  /** All macros of `t` expanded; None is an error. */
  function Whole(c: Context, counts: seq<nat>, t: string, args: seq<string>): Option<string>
    requires |counts| == |c.vars|
    decreases Allowance(counts), |t|, 1
  {
    var k := FindMacro(t);
    if k == |t| then Some(t)
    else
      var r := Call(c, counts, t[k + 2..], args, "", [], 0);
      if r.None? then None
      else
        var w := Whole(c, counts, r.value.rest, args);
        if w.None? then None else Some(t[..k] + r.value.value + w.value)
  }

  /**
    The value of a macro call. `t` is the unread text, `cur` the text of the current argument so far,
    `done` the arguments before it, `nesting` the parentheses open inside it.
    */
  function Call(c: Context, counts: seq<nat>, t: string, args: seq<string>, cur: string, done: seq<string>, nesting: nat)
    : (r: Option<Expanded>)
    requires |counts| == |c.vars|
    ensures r.Some? ==> |r.value.rest| < |t|
    decreases Allowance(counts), |t|, 0
  {
    var k := FindSpecial(t);
    if k == |t| then None
    else if t[k] == '(' then Call(c, counts, t[k + 1..], args, cur + t[..k + 1], done, nesting + 1)
    else if t[k] == ')' then
      if nesting > 0 then Call(c, counts, t[k + 1..], args, cur + t[..k + 1], done, nesting - 1)
      else
        var v := Value(c, counts, done + [cur + t[..k]], args);
        if v.None? then None else Some(Expanded(v.value, t[k + 1..]))
    else if t[k] == ',' then
      if nesting > 0 then Call(c, counts, t[k + 1..], args, cur + t[..k + 1], done, nesting)
      else Call(c, counts, t[k + 1..], args, "", done + [cur + t[..k]], nesting)
    else
      var inner := Call(c, counts, t[k + 2..], args, "", [], 0);
      if inner.None? then None
      else Call(c, counts, inner.value.rest, args, cur + t[..k] + inner.value.value, done, nesting)
  }

  /** The argument that `name` numbers, counting from the end when negative. */
  function Numbered(name: string, args: seq<string>): Option<string> {
    var n := ParseInt(Strip(name), 10);
    if n.None? then None
    else if 0 <= n.value < |args| then Some(args[n.value])
    else if -|args| <= n.value < 0 then Some(args[|args| + n.value])
    else None
  }

  /** Arguments of the enclosing function first, then variables, functions and the environment. */
  function Value(c: Context, counts: seq<nat>, call: seq<string>, args: seq<string>): Option<string>
    requires |counts| == |c.vars| && call != []
    decreases Allowance(counts), 0, 1
  {
    if Numbered(call[0], args).Some? then Numbered(call[0], args) else FunctionValue(c, counts, call)
  }

  function FunctionValue(c: Context, counts: seq<nat>, call: seq<string>): Option<string>
    requires |counts| == |c.vars| && call != []
    decreases Allowance(counts), 0, 0
  {
    var k := Find(c.vars, call[0]);
    if k < |c.vars| then
      if (|call| == 1 && counts[k] != 0) || (|call| > 1 && counts[k] > MOST) then None
      else
        AllowanceSpent(counts, k);
        Whole(c, counts[k := counts[k] + 1], c.vars[k].value, call)
    else if call[0] in c.functions then
      var f := c.functions[call[0]];
      if |call| - 1 < f.minArgs || (f.maxArgs.Some? && |call| - 1 > f.maxArgs.value) then None else f.call(call)
    else Some(if call[0] in c.environ then c.environ[call[0]] else "")
  }

  // ---------------------------------------------------------------------------------------------
  // Expansion in place

  ghost function Prefixed(before: string, r: Option<string>): Option<string> {
    if r.None? then None else Some(before + r.value)
  }

  /** The text with a call replaced by its value, and the position behind the value. */
  ghost function Spliced(before: string, r: Option<Expanded>): Option<(string, nat)> {
    if r.None? then None else Some((before + r.value.value + r.value.rest, |before + r.value.value|))
  }

  lemma {:induction false} NothingBefore(r: Option<string>)
    ensures Prefixed("", r) == r
  {
    if r.Some? { assert "" + r.value == r.value; }
  }

  lemma {:induction false} PrefixedTwice(a: string, b: string, v: string, r: Option<string>)
    ensures Prefixed(a, Prefixed(b + v, r)) == Prefixed(a + b + v, r)
  {
    if r.Some? { assert a + (b + v + r.value) == a + b + v + r.value; }
  }

  lemma {:induction false} WholeUnfolds(c: Context, counts: seq<nat>, t: string, args: seq<string>)
    requires |counts| == |c.vars|
    ensures var k := FindMacro(t);
            Whole(c, counts, t, args) ==
            if k == |t| then Some(t)
            else
              var r := Call(c, counts, t[k + 2..], args, "", [], 0);
              if r.None? then None else Prefixed(t[..k] + r.value.value, Whole(c, counts, r.value.rest, args))
  {
    hide Call, FindMacro;
  }

  /** One step of the expansion of `s` from position `i` on. */
  lemma {:induction false} WholeStep(c: Context, counts: seq<nat>, s: string, i: nat, args: seq<string>)
    requires |counts| == |c.vars| && i <= |s|
    ensures var k := i + FindMacro(s[i..]);
            var before := Prefixed(s[..i], Whole(c, counts, s[i..], args));
            if k == |s| then before == Some(s)
            else
              MacroAt(s, k) &&
              var r := Call(c, counts, s[k + 2..], args, "", [], 0);
              if r.None? then before == None
              else before == Prefixed(s[..k] + r.value.value, Whole(c, counts, r.value.rest, args))
  {
    hide Call, FindMacro, Whole;
    var t := s[i..];
    var n := FindMacro(t);
    assert s == s[..i] + t;
    WholeUnfolds(c, counts, t, args);
    if n < |t| {
      assert t[n + 2..] == s[i + n + 2..] && s[..i] + t[..n] == s[..i + n];
      var r := Call(c, counts, t[n + 2..], args, "", [], 0);
      if r.Some? { PrefixedTwice(s[..i], t[..n], r.value.value, Whole(c, counts, r.value.rest, args)); }
    }
  }

  lemma {:induction false} CallUnfolds(c: Context, counts: seq<nat>, t: string, args: seq<string>, cur: string, done: seq<string>, nesting: nat)
    requires |counts| == |c.vars|
    ensures FindSpecial(t) == |t| ==> Call(c, counts, t, args, cur, done, nesting) == None
    ensures FindSpecial(t) < |t| ==>
            var k := FindSpecial(t);
            var upTo, behind, now := cur + t[..k], t[k + 1..], Call(c, counts, t, args, cur, done, nesting);
            if t[k] == '(' then now == Call(c, counts, behind, args, cur + t[..k + 1], done, nesting + 1)
            else if t[k] == ')' && nesting > 0 then
              now == Call(c, counts, behind, args, cur + t[..k + 1], done, nesting - 1)
            else if t[k] == ')' then
              var v := Value(c, counts, done + [upTo], args);
              now == if v.None? then None else Some(Expanded(v.value, behind))
            else if t[k] == ',' && nesting > 0 then now == Call(c, counts, behind, args, cur + t[..k + 1], done, nesting)
            else if t[k] == ',' then now == Call(c, counts, behind, args, "", done + [upTo], nesting)
            else
              var inner := Call(c, counts, t[k + 2..], args, "", [], 0);
              now == if inner.None? then None
                     else Call(c, counts, inner.value.rest, args, upTo + inner.value.value, done, nesting)
  {
    hide FindSpecial, Value;
  }

  lemma {:induction false} Slices(s: string, i: nat, from: nat, n: nat)
    requires from <= i && i + n < |s|
    ensures s[i..][n] == s[i + n] && s[i..][n + 1..] == s[i + n + 1..]
    ensures s[from..i] + s[i..][..n] == s[from..i + n] && s[from..i] + s[i..][..n + 1] == s[from..i + n + 1]
    ensures i + n + 2 <= |s| ==> s[i..][n + 2..] == s[i + n + 2..]
  {
  }

  /** One step of a call whose current argument started at `from` and that is read up to `i`. */
  lemma {:induction false} CallStep(c: Context, counts: seq<nat>, s: string, i: nat, args: seq<string>, from: nat, done: seq<string>, nesting: nat)
    requires |counts| == |c.vars| && from <= i <= |s|
    ensures var k := i + FindSpecial(s[i..]);
            var now := Call(c, counts, s[i..], args, s[from..i], done, nesting);
            if k == |s| then now == None
            else if s[k] == '(' then now == Call(c, counts, s[k + 1..], args, s[from..k + 1], done, nesting + 1)
            else if s[k] == ')' && nesting > 0 then
              now == Call(c, counts, s[k + 1..], args, s[from..k + 1], done, nesting - 1)
            else if s[k] == ')' then
              var v := Value(c, counts, done + [s[from..k]], args);
              now == if v.None? then None else Some(Expanded(v.value, s[k + 1..]))
            else if s[k] == ',' && nesting > 0 then
              now == Call(c, counts, s[k + 1..], args, s[from..k + 1], done, nesting)
            else if s[k] == ',' then now == Call(c, counts, s[k + 1..], args, "", done + [s[from..k]], nesting)
            else
              MacroAt(s, k) &&
              var inner := Call(c, counts, s[k + 2..], args, "", [], 0);
              now == if inner.None? then None
                     else Call(c, counts, inner.value.rest, args, s[from..k] + inner.value.value, done, nesting)
  {
    hide Value, FindSpecial, Call;
    var t := s[i..];
    if FindSpecial(t) < |t| { Slices(s, i, from, FindSpecial(t)); }
    CallUnfolds(c, counts, t, args, s[from..i], done, nesting);
  }

  class Expander {
    const c: Context
    var counts: seq<nat>

    ghost predicate Valid()
      reads this
    {
      |counts| == |c.vars|
    }

    constructor (context: Context)
      ensures Valid() && c == context && counts == seq(|c.vars|, _ => 0)
    {
      c := context;
      counts := seq(|context.vars|, _ => 0);
    }

    method ExpandWhole(text: string, args: seq<string>) returns (r: Option<string>)
      requires Valid()
      modifies this
      ensures Valid() && r == Whole(c, old(counts), text, args) && (r.Some? ==> counts == old(counts))
      decreases Allowance(counts), |text|, 1
    {
      hide Whole, Call, FindMacro;
      var s: string, i: nat := text, 0;
      assert s[i..] == text && s[..i] == "";
      NothingBefore(Whole(c, counts, text, args));
      while true
        invariant Valid() && counts == old(counts) && i <= |s| && |s| - i <= |text|
        invariant Whole(c, counts, text, args) == Prefixed(s[..i], Whole(c, counts, s[i..], args))
        decreases |s| - i
      {
        var k := i + FindMacro(s[i..]);
        WholeStep(c, counts, s, i, args);
        if k == |s| { return Some(s); }
        var m := ExpandMacro(s, k, args);
        if m.None? { return None; }
        s, i := m.value.0, m.value.1;
      }
    }

    method ExpandMacro(text: string, start: nat, args: seq<string>) returns (r: Option<(string, nat)>)
      requires Valid() && MacroAt(text, start)
      modifies this
      ensures Valid() && (r.Some? ==> counts == old(counts))
      ensures r == Spliced(text[..start], Call(c, old(counts), text[start + 2..], args, "", [], 0))
      decreases Allowance(counts), |text| - start, 0
    {
      hide Whole, Call, FindSpecial;
      var s: string, i: nat := text, start + 2;
      var res := s[..start];
      var argStart: nat, newArgs: seq<string>, nesting: nat := i, [], 0;
      assert s[argStart..i] == "";
      while true
        invariant Valid() && counts == old(counts) && argStart <= i <= |s| && |s| - i < |text| - start && nesting >= 0
        invariant Call(c, counts, text[start + 2..], args, "", [], 0)
               == Call(c, counts, s[i..], args, s[argStart..i], newArgs, nesting)
        decreases |s| - i
      {
        var k := i + FindSpecial(s[i..]);
        CallStep(c, counts, s, i, args, argStart, newArgs, nesting);
        if k == |s| { return None; }
        if s[k] == '(' {
          nesting := nesting + 1;
          i := k + 1;
        } else if s[k] == ')' {
          if nesting > 0 {
            nesting := nesting - 1;
            i := k + 1;
            continue;
          }
          newArgs := newArgs + [s[argStart..k]];
          var n := Numbered(newArgs[0], args);
          if n.Some? {
            res := res + n.value;
          } else {
            var v := FnVal(newArgs);
            if v.None? { return None; }
            res := res + v.value;
          }
          return Some((res + s[k + 1..], |res|));
        } else if s[k] == ',' {
          i := k + 1;
          if nesting > 0 { continue; }
          newArgs := newArgs + [s[argStart..k]];
          argStart := i;
          assert s[argStart..i] == "";
        } else {
          var m := ExpandMacro(s, k, args);
          if m.None? { return None; }
          ghost var inner, arg := Call(c, counts, s[k + 2..], args, "", [], 0).value, s[argStart..k];
          s, i := m.value.0, m.value.1;
          assert s[i..] == inner.rest && s[argStart..i] == arg + inner.value;
        }
      }
    }

    method FnVal(call: seq<string>) returns (r: Option<string>)
      requires Valid() && call != []
      modifies this
      ensures Valid() && r == FunctionValue(c, old(counts), call) && (r.Some? ==> counts == old(counts))
      decreases Allowance(counts), 0, 0
    {
      var k := Find(c.vars, call[0]);
      if k < |c.vars| {
        if |call| == 1 {
          if counts[k] != 0 { return None; }
        } else if counts[k] > MOST {
          return None;
        }
        AllowanceSpent(counts, k);
        counts := counts[k := counts[k] + 1];
        r := ExpandWhole(c.vars[k].value, call);
        if r.None? { return; }
        counts := counts[k := counts[k] - 1];
        return;
      }
      if call[0] in c.functions {
        var f := c.functions[call[0]];
        if |call| - 1 < f.minArgs || (f.maxArgs.Some? && |call| - 1 > f.maxArgs.value) { return None; }
        return f.call(call);
      }
      return Some(if call[0] in c.environ then c.environ[call[0]] else "");
    }
  }

  // ---------------------------------------------------------------------------------------------
  // Expansion proceeds from left to right and never looks at what it has produced

  predicate Suffix(rest: string, t: string) { |rest| <= |t| && t[|t| - |rest|..] == rest }

  /** A "$(" has its two characters on either side of the border. */
  predicate Straddles(a: string, b: string) { a != [] && b != [] && a[|a| - 1] == '$' && b[0] == '(' }

  lemma {:induction false} FindSpecialAppend(a: string, b: string)
    requires FindSpecial(a) < |a|
    ensures FindSpecial(a + b) == FindSpecial(a)
  {
    var n, m := FindSpecial(a), FindSpecial(a + b);
    assert SpecialAt(a + b, n);
    assert m < n ==> SpecialAt(a, m);
  }

  lemma {:induction false} FindMacroAppend(a: string, b: string)
    requires !Straddles(a, b)
    ensures FindMacro(a + b) == if FindMacro(a) < |a| then FindMacro(a) else |a| + FindMacro(b)
  {
    var ab, n, m := a + b, FindMacro(a), FindMacro(a + b);
    var expected := if n < |a| then n else |a| + FindMacro(b);
    assert expected < |ab| ==> MacroAt(ab, expected);
    assert m < expected && m < |a| ==> MacroAt(a, m);
    assert m < expected && m >= |a| ==> MacroAt(b, m - |a|);
  }

  lemma {:induction false} SplitAfter(a: string, b: string, k: nat)
    requires k <= |a|
    ensures (a + b)[k..] == a[k..] + b && (a + b)[..k] == a[..k]
  {
  }

  lemma {:induction false} SuffixTail(rest: string, t: string, k: nat)
    requires k <= |t| && Suffix(rest, t[k..])
    ensures Suffix(rest, t)
  {
  }

  /** Text behind a call does not change its value and is left as it is. */
  lemma {:induction false} CallAppend(c: Context, counts: seq<nat>, a: string, b: string, args: seq<string>,
                                      cur: string, done: seq<string>, nesting: nat)
    requires |counts| == |c.vars| && Call(c, counts, a, args, cur, done, nesting).Some?
    ensures var e := Call(c, counts, a, args, cur, done, nesting).value;
            Suffix(e.rest, a) && Call(c, counts, a + b, args, cur, done, nesting) == Some(Expanded(e.value, e.rest + b))
    decreases |a|
  {
    hide Call, FindSpecial, Value, Suffix;
    var k := FindSpecial(a);
    CallUnfolds(c, counts, a, args, cur, done, nesting);
    CallUnfolds(c, counts, a + b, args, cur, done, nesting);
    assert k < |a|;
    FindSpecialAppend(a, b);
    SplitAfter(a, b, k);
    SplitAfter(a, b, k + 1);
    if a[k] == '(' {
      CallAppend(c, counts, a[k + 1..], b, args, cur + a[..k + 1], done, nesting + 1);
      SuffixTail(Call(c, counts, a, args, cur, done, nesting).value.rest, a, k + 1);
    } else if a[k] == ')' {
      if nesting > 0 {
        CallAppend(c, counts, a[k + 1..], b, args, cur + a[..k + 1], done, nesting - 1);
        SuffixTail(Call(c, counts, a, args, cur, done, nesting).value.rest, a, k + 1);
      } else {
        WholeSuffix(a, k + 1);
      }
    } else if a[k] == ',' {
      if nesting > 0 {
        CallAppend(c, counts, a[k + 1..], b, args, cur + a[..k + 1], done, nesting);
      } else {
        CallAppend(c, counts, a[k + 1..], b, args, "", done + [cur + a[..k]], nesting);
      }
      SuffixTail(Call(c, counts, a, args, cur, done, nesting).value.rest, a, k + 1);
    } else {
      NestedAppend(c, counts, a, b, args, cur, done, nesting);
    }
  }

  lemma {:induction false} NestedAppend(c: Context, counts: seq<nat>, a: string, b: string, args: seq<string>,
                                        cur: string, done: seq<string>, nesting: nat)
    requires |counts| == |c.vars| && Call(c, counts, a, args, cur, done, nesting).Some?
    requires FindSpecial(a) < |a| && a[FindSpecial(a)] == '$'
    ensures var e := Call(c, counts, a, args, cur, done, nesting).value;
            Suffix(e.rest, a) && Call(c, counts, a + b, args, cur, done, nesting) == Some(Expanded(e.value, e.rest + b))
    decreases |a|, 0
  {
    hide Call, FindSpecial, Value, Suffix;
    var k := FindSpecial(a);
    CallUnfolds(c, counts, a, args, cur, done, nesting);
    CallUnfolds(c, counts, a + b, args, cur, done, nesting);
    FindSpecialAppend(a, b);
    SplitAfter(a, b, k);
    SplitAfter(a, b, k + 2);
    CallAppend(c, counts, a[k + 2..], b, args, "", [], 0);
    var inner := Call(c, counts, a[k + 2..], args, "", [], 0).value;
    CallAppend(c, counts, inner.rest, b, args, cur + a[..k] + inner.value, done, nesting);
    var e := Call(c, counts, a, args, cur, done, nesting).value;
    SuffixSuffix(e.rest, inner.rest, a[k + 2..]);
    SuffixTail(e.rest, a, k + 2);
  }

  lemma {:induction false} WholeSuffix(t: string, k: nat)
    requires k <= |t|
    ensures Suffix(t[k..], t)
  {
  }

  lemma {:induction false} SuffixSuffix(a: string, b: string, t: string)
    requires Suffix(a, b) && Suffix(b, t)
    ensures Suffix(a, t)
  {
  }

  /**
    A text is expanded piece by piece: the expansion of `a` followed by `b` is the expansion of `a`
    followed by that of `b`, whatever `a` expanded to.
    */
  lemma {:induction false} WholeAppend(c: Context, counts: seq<nat>, a: string, b: string, args: seq<string>)
    requires |counts| == |c.vars| && Whole(c, counts, a, args).Some? && !Straddles(a, b)
    ensures Whole(c, counts, a + b, args) == Prefixed(Whole(c, counts, a, args).value, Whole(c, counts, b, args))
    decreases |a|
  {
    hide Call, FindMacro, Whole;
    var k := FindMacro(a);
    FindMacroAppend(a, b);
    WholeUnfolds(c, counts, a, args);
    if k == |a| {
      PlainBefore(c, counts, a, b, args);
    } else {
      WholeUnfolds(c, counts, a + b, args);
      SplitAfter(a, b, k);
      SplitAfter(a, b, k + 2);
      CallAppend(c, counts, a[k + 2..], b, args, "", [], 0);
      var r := Call(c, counts, a[k + 2..], args, "", [], 0).value;
      SuffixTail(r.rest, a, k + 2);
      WholeAppend(c, counts, r.rest, b, args);
      var w, x := Whole(c, counts, r.rest, args).value, Whole(c, counts, b, args);
      if x.Some? { assert a[..k] + r.value + (w + x.value) == a[..k] + r.value + w + x.value; }
    }
  }

  /** Text without macros stays as it is. */
  lemma {:induction false} PlainBefore(c: Context, counts: seq<nat>, a: string, b: string, args: seq<string>)
    requires |counts| == |c.vars| && FindMacro(a) == |a| && !Straddles(a, b)
    ensures Whole(c, counts, a + b, args) == Prefixed(a, Whole(c, counts, b, args))
  {
    hide Call, FindMacro, Whole;
    FindMacroAppend(a, b);
    WholeUnfolds(c, counts, a + b, args);
    WholeUnfolds(c, counts, b, args);
    var k := FindMacro(b);
    if k < |b| {
      assert (a + b)[|a| + k + 2..] == b[k + 2..] && (a + b)[..|a| + k] == a + b[..k];
      var r := Call(c, counts, b[k + 2..], args, "", [], 0);
      if r.Some? { PrefixedTwice(a, b[..k], r.value.value, Whole(c, counts, r.value.rest, args)); }
    }
  }
}
