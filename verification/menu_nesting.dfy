/**
  What is nested where in the final menu tree: below every menu with a prompt, and below every choice,
  exactly what was parsed inside it; below a symbol with a prompt its implicit submenu; below anything
  else nothing.
  */
module MenuNesting {
  import opened Basics
  import opened MenuTree

  /** A node and all nodes below it, in order. */
  datatype Span = Span(id: nat, below: seq<nat>)

  function Spans(ts: seq<Tree>): seq<Span> {
    if ts == [] then [] else [Span(ts[0].id, Preorder(ts[0].kids))] + Spans(ts[0].kids) + Spans(ts[1..])
  }

  /** How many of the entries `ts` go into the implicit submenu of symbol `s`: those that depend on it, with theirs. */
  function Run(f: Facts, s: nat, ts: seq<Tree>): (m: nat)
    ensures m <= |ts|
    decreases |ts|
  {
    if ts == [] || !f.auto(s, ts[0].id) then 0
    else
      var m := Taken(f, ts);
      m + Run(f, s, ts[m..])
  }

  /** The first entry and its implicit submenu, if it is a symbol. */
  function Taken(f: Facts, ts: seq<Tree>): (m: nat)
    requires ts != []
    ensures 0 < m <= |ts|
    decreases |ts|, 0
  {
    1 + if f.kind(ts[0].id) == SymbolItem then Run(f, ts[0].id, ts[1..]) else 0
  }

  /** The entries that belong below the first one. */
  function Owned(f: Facts, ts: seq<Tree>): seq<Tree>
    requires ts != []
  {
    if f.kind(ts[0].id) == SymbolItem then ts[1..Taken(f, ts)] else ts[0].kids
  }

  /** Entries with a prompt and choices can have something below them. */
  predicate Opens(f: Facts, n: nat) { f.prompt(n) || f.kind(n) == ChoiceItem }

  /** What should be below each parsed node other than ifs. */
  function Nested(f: Facts, ts: seq<Tree>): seq<Span> {
    if ts == [] then []
    else
      var n := ts[0].id;
      (if f.kind(n) == IfItem then [] else [Span(n, if Opens(f, n) then Kept(f, Preorder(Owned(f, ts))) else [])])
      + Nested(f, ts[0].kids) + Nested(f, ts[1..])
  }

  // ---------------------------------------------------------------------------------------------
  // Finalizing a level

  /** Without the ifs, and with nothing below what does not open. */
  function Settle(f: Facts, ss: seq<Span>): seq<Span> {
    if ss == [] then []
    else
      var s := ss[0];
      (if f.kind(s.id) == IfItem then [] else [Span(s.id, if Opens(f, s.id) then s.below else [])]) + Settle(f, ss[1..])
  }

  lemma {:induction false} SettleConcat(f: Facts, a: seq<Span>, b: seq<Span>)
    ensures Settle(f, a + b) == Settle(f, a) + Settle(f, b)
  {
    if a == [] {
      assert a + b == b;
    } else {
      assert (a + b)[1..] == a[1..] + b;
      SettleConcat(f, a[1..], b);
    }
  }

  lemma {:induction false} SpansConcat(a: seq<Tree>, b: seq<Tree>)
    ensures Spans(a + b) == Spans(a) + Spans(b)
  {
    hide Preorder;
    if a == [] {
      assert a + b == b;
    } else {
      assert (a + b)[1..] == a[1..] + b;
      SpansConcat(a[1..], b);
    }
  }

  lemma {:induction false} SpansCons(t: Tree, ts: seq<Tree>)
    ensures Spans([t] + ts) == [Span(t.id, Preorder(t.kids))] + Spans(t.kids) + Spans(ts)
  {
    assert ([t] + ts)[1..] == ts;
  }

  lemma {:induction false} SettleOne(f: Facts, s: Span)
    ensures Settle(f, [s]) == if f.kind(s.id) == IfItem then [] else [Span(s.id, if Opens(f, s.id) then s.below else [])]
  {
    assert [s][1..] == [];
  }

  /** The spans of `[t] + ts`, settled. */
  lemma {:induction false} SettleCons(f: Facts, t: Tree, ts: seq<Tree>)
    ensures Settle(f, Spans([t] + ts)) ==
            Settle(f, [Span(t.id, Preorder(t.kids))]) + Settle(f, Spans(t.kids)) + Settle(f, Spans(ts))
  {
    hide Preorder, Settle, Spans;
    var s, a, b := [Span(t.id, Preorder(t.kids))], Spans(t.kids), Spans(ts);
    SpansCons(t, ts);
    SettleConcat(f, s + a, b);
    SettleConcat(f, s, a);
  }

  /** A tidy forest is settled. */
  lemma {:induction false} TidySettled(f: Facts, ts: seq<Tree>)
    requires Tidy(f, ts)
    ensures Settle(f, Spans(ts)) == Spans(ts)
  {
    if ts != [] {
      TidySettled(f, ts[0].kids);
      TidySettled(f, ts[1..]);
      assert ts == [ts[0]] + ts[1..];
      SettleCons(f, ts[0], ts[1..]);
      SettleOne(f, Span(ts[0].id, Preorder(ts[0].kids)));
    }
  }

  lemma {:induction false} FlattenSettles(f: Facts, ts: seq<Tree>)
    requires KidsTidy(f, ts)
    ensures Settle(f, Spans(Flatten(f, ts))) == Settle(f, Spans(ts))
    decreases Count(ts)
  {
    hide Spans, Settle, Preorder;
    if ts != [] {
      var t := ts[0];
      assert ts == [t] + ts[1..];
      SettleCons(f, t, ts[1..]);
      if MovesUp(f, t) {
        var moved := t.kids + ts[1..];
        CountConcat(t.kids, ts[1..]);
        KidsTidyConcat(f, t.kids, ts[1..]);
        FlattenSettles(f, moved);
        SpansConcat(t.kids, ts[1..]);
        SettleConcat(f, Spans(t.kids), Spans(ts[1..]));
        var bare := Node(t.id, []);
        SettleCons(f, bare, Flatten(f, moved));
        SettleOne(f, Span(t.id, Preorder(t.kids)));
        SettleOne(f, Span(t.id, Preorder([])));
        NothingSettled(f);
      } else {
        FlattenSettles(f, ts[1..]);
        SettleCons(f, t, Flatten(f, ts[1..]));
      }
    }
  }

  lemma {:induction false} NothingSettled(f: Facts)
    ensures Settle(f, Spans([])) == [] && Preorder([]) == []
  {
  }

  lemma {:induction false} RemoveIfsSettles(f: Facts, ts: seq<Tree>)
    requires Flat(f, ts) && IfsUnprompted(f)
    ensures Settle(f, Spans(RemoveIfs(f, ts))) == Settle(f, Spans(ts))
  {
    hide Spans, Settle, Preorder;
    if ts != [] {
      var t := ts[0];
      assert ts == [t] + ts[1..];
      RemoveIfsSettles(f, ts[1..]);
      SettleCons(f, t, ts[1..]);
      SettleCons(f, t, RemoveIfs(f, ts[1..]));
      if f.kind(t.id) == IfItem {
        assert !MovesUp(f, t) && t.kids == [];
        SettleOne(f, Span(t.id, Preorder(t.kids)));
        NothingSettled(f);
      }
    }
  }

  /** Flattening a level and removing its ifs settles it. */
  lemma {:induction false} LevelSettles(f: Facts, ts: seq<Tree>)
    requires KidsTidy(f, ts) && IfsUnprompted(f)
    ensures Spans(Level(f, ts)) == Settle(f, Spans(ts))
  {
    hide Spans, Settle, Flatten, RemoveIfs;
    LevelTidy(f, ts);
    TidySettled(f, Level(f, ts));
    FlattenIsFlat(f, ts);
    RemoveIfsSettles(f, Flatten(f, ts));
    FlattenSettles(f, ts);
  }

  // ---------------------------------------------------------------------------------------------
  // Finalizing everything

  lemma {:induction false} HeadTakes(f: Facts, ts: seq<Tree>)
    requires ts != []
    ensures FinalizeHead(f, ts).rest == ts[Taken(f, ts)..]
    decreases Count(ts), 1
  {
    if f.kind(ts[0].id) == SymbolItem {
      AbsorbTakes(f, ts[0].id, ts[1..]);
      assert ts[1..][Run(f, ts[0].id, ts[1..])..] == ts[Taken(f, ts)..];
      var a := Absorb(f, ts[0].id, ts[1..]);
      if a.kids == [] { assert a.rest == ts[1..]; }
    }
  }

  lemma {:induction false} AbsorbTakes(f: Facts, s: nat, ts: seq<Tree>)
    ensures Absorb(f, s, ts).rest == ts[Run(f, s, ts)..]
    decreases Count(ts), 2
  {
    hide FinalizeHead;
    if ts != [] && f.auto(s, ts[0].id) {
      HeadTakes(f, ts);
      var h, m := FinalizeHead(f, ts), Taken(f, ts);
      AbsorbTakes(f, s, h.rest);
      assert ts[m..][Run(f, s, ts[m..])..] == ts[m + Run(f, s, ts[m..])..];
    }
  }

  /** The submenu of a symbol holds what it took, in order. */
  lemma {:induction false} AbsorbHolds(f: Facts, s: nat, ts: seq<Tree>)
    requires Parsed(f, ts) && IfsUnprompted(f)
    ensures Kept(f, Preorder(Absorb(f, s, ts).kids)) == Kept(f, Preorder(ts[..Run(f, s, ts)]))
  {
    hide Preorder, Kept, Absorb, Run;
    var a, m := Absorb(f, s, ts), Run(f, s, ts);
    AbsorbOrder(f, s, ts);
    AbsorbTakes(f, s, ts);
    assert ts == ts[..m] + ts[m..];
    PreorderConcat(a.kids, a.rest);
    PreorderConcat(ts[..m], ts[m..]);
    KeptConcat(f, Preorder(a.kids), Preorder(a.rest));
    KeptConcat(f, Preorder(ts[..m]), Preorder(ts[m..]));
    CancelSuffix(Kept(f, Preorder(a.kids)), Kept(f, Preorder(ts[..m])), Kept(f, Preorder(a.rest)));
  }

  lemma {:induction false} CancelSuffix(a: seq<nat>, b: seq<nat>, c: seq<nat>)
    requires a + c == b + c
    ensures a == b
  {
    assert |a + c| == |b + c|;
    forall k | 0 <= k < |a| ensures a[k] == b[k] { assert (a + c)[k] == a[k] && (b + c)[k] == b[k]; }
  }

  /** The order of a finalized level, without ifs. */
  lemma {:induction false} LevelHolds(f: Facts, ts: seq<Tree>)
    requires KidsTidy(f, ts) && IfsUnprompted(f)
    ensures Preorder(Level(f, ts)) == Kept(f, Preorder(ts))
  {
    hide Preorder, Kept, Level;
    LevelOrder(f, ts);
    LevelTidy(f, ts);
    TidyHasNoIfs(f, Level(f, ts));
  }

  lemma {:induction false} NestedCons(f: Facts, ts: seq<Tree>)
    requires ts != []
    ensures Nested(f, ts) == Settle(f, [Span(ts[0].id, Kept(f, Preorder(Owned(f, ts))))]) + Nested(f, ts[0].kids) + Nested(f, ts[1..])
  {
    hide Preorder, Kept, Owned, Settle;
    SettleOne(f, Span(ts[0].id, Kept(f, Preorder(Owned(f, ts)))));
  }

  /** A node whose children come from a finalized level. */
  lemma {:induction false} OneSettled(f: Facts, n: nat, ts: seq<Tree>)
    requires KidsTidy(f, ts) && IfsUnprompted(f)
    ensures Settle(f, Spans([Node(n, Level(f, ts))])) ==
            Settle(f, [Span(n, Kept(f, Preorder(ts)))]) + Settle(f, Spans(ts))
  {
    hide Preorder, Kept, Level, Spans, Settle;
    var t := Node(n, Level(f, ts));
    assert [t] == [t] + [];
    SettleCons(f, t, []);
    NothingSettled(f);
    LevelHolds(f, ts);
    LevelSettles(f, ts);
    TidySettledLevel(f, ts);
  }

  lemma {:induction false} HeadNested(f: Facts, ts: seq<Tree>)
    requires ts != [] && Parsed(f, ts) && IfsUnprompted(f)
    ensures var h := FinalizeHead(f, ts); Settle(f, Spans([h.first])) + Nested(f, h.rest) == Nested(f, ts)
    decreases Count(ts), 1
  {
    hide Preorder, Kept, Level, Spans, Settle, FinalizeAll, Absorb, Nested;
    var t := ts[0];
    NestedCons(f, ts);
    if f.kind(t.id) == SymbolItem {
      SymbolNested(f, ts);
    } else {
      AllNested(f, t.kids);
      AllTidy(f, t.kids);
      AllOrder(f, t.kids);
      OneSettled(f, t.id, FinalizeAll(f, t.kids));
    }
  }

  lemma {:induction false} SymbolNested(f: Facts, ts: seq<Tree>)
    requires ts != [] && f.kind(ts[0].id) == SymbolItem && Parsed(f, ts) && IfsUnprompted(f)
    ensures var h := FinalizeHead(f, ts); Settle(f, Spans([h.first])) + Nested(f, h.rest) == Nested(f, ts)
    decreases Count(ts), 0
  {
    hide Preorder, Kept, Level, Spans, Settle, FinalizeAll, Absorb, Nested;
    var t, n, rest := ts[0], ts[0].id, ts[1..];
    var a := Absorb(f, n, rest);
    NestedCons(f, ts);
    NoKids(f, t, a);
    AbsorbNested(f, n, rest);
    AbsorbTidy(f, n, rest);
    AbsorbHolds(f, n, rest);
    assert Owned(f, ts) == rest[..Run(f, n, rest)];
    OneSettled(f, n, a.kids);
    Regroup(Settle(f, [Span(n, Kept(f, Preorder(a.kids)))]), Settle(f, Spans(a.kids)), Nested(f, a.rest));
  }

  lemma {:induction false} Regroup(a: seq<Span>, b: seq<Span>, c: seq<Span>)
    ensures a + b + c == a + (b + c) && a + [] + (b + c) == a + (b + c)
  {
  }

  lemma {:induction false} TidySettledLevel(f: Facts, ts: seq<Tree>)
    requires KidsTidy(f, ts)
    ensures Settle(f, Spans(Level(f, ts))) == Spans(Level(f, ts))
  {
    LevelTidy(f, ts);
    TidySettled(f, Level(f, ts));
  }

  /** A symbol has no children of its own; without a submenu it ends up with none. */
  lemma {:induction false} NoKids(f: Facts, t: Tree, a: Absorbed)
    requires t.kids == []
    ensures Level(f, if a.kids == [] then t.kids else a.kids) == Level(f, a.kids) && Nested(f, t.kids) == []
  {
  }

  lemma {:induction false} AbsorbNested(f: Facts, s: nat, ts: seq<Tree>)
    requires Parsed(f, ts) && IfsUnprompted(f)
    ensures var a := Absorb(f, s, ts); Settle(f, Spans(a.kids)) + Nested(f, a.rest) == Nested(f, ts)
    decreases Count(ts), 2
  {
    hide Spans, Settle, FinalizeHead, Nested;
    var a := Absorb(f, s, ts);
    if a.kids == [] {
      NothingSettled(f);
    } else {
      var h := FinalizeHead(f, ts);
      HeadNested(f, ts);
      HeadTidy(f, ts);
      AbsorbNested(f, s, h.rest);
      var more := Absorb(f, s, h.rest);
      SpansConcat([h.first], more.kids);
      SettleConcat(f, Spans([h.first]), Spans(more.kids));
    }
  }

  lemma {:induction false} AllNested(f: Facts, ts: seq<Tree>)
    requires Parsed(f, ts) && IfsUnprompted(f)
    ensures Settle(f, Spans(FinalizeAll(f, ts))) == Nested(f, ts)
    decreases Count(ts), 2
  {
    hide Spans, Settle, FinalizeHead, Nested;
    if ts == [] {
      NothingSettled(f);
      NothingNested(f);
    } else {
      var h := FinalizeHead(f, ts);
      HeadNested(f, ts);
      HeadTidy(f, ts);
      AllNested(f, h.rest);
      SpansConcat([h.first], FinalizeAll(f, h.rest));
      SettleConcat(f, Spans([h.first]), Spans(FinalizeAll(f, h.rest)));
    }
  }

  lemma {:induction false} NothingNested(f: Facts)
    ensures Nested(f, []) == []
  {
  }

  /** The final tree: which nodes there are, in which order, and what is below each of them. */
  lemma {:induction false} FinalNesting(f: Facts, ts: seq<Tree>)
    requires Parsed(f, ts) && IfsUnprompted(f)
    ensures Spans(Final(f, ts)) == Nested(f, ts)
  {
    hide Spans, Settle, Nested, FinalizeAll, Level;
    AllTidy(f, ts);
    LevelSettles(f, FinalizeAll(f, ts));
    AllNested(f, ts);
  }
}
