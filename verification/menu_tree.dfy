/**
  Finalizing the menu tree: symbols take the entries that depend on them as an implicit submenu, the
  children of entries without a prompt move up behind them, and `if` entries disappear. None of this
  changes the order in which a walk over the tree meets the entries.
  */
module MenuTree {
  import opened Basics

  datatype Kind = SymbolItem | ChoiceItem | MenuItem | CommentItem | IfItem

  /** A menu node, by number, and its children. */
  datatype Tree = Node(id: nat, kids: seq<Tree>)

  /** The item and prompt of every node, and which entries go into the implicit submenu of a symbol. */
  datatype Facts = Facts(kind: nat -> Kind, prompt: nat -> bool, auto: (nat, nat) -> bool)

  function Count(ts: seq<Tree>): nat { if ts == [] then 0 else 1 + Count(ts[0].kids) + Count(ts[1..]) }

  lemma {:induction false} CountConcat(a: seq<Tree>, b: seq<Tree>)
    ensures Count(a + b) == Count(a) + Count(b)
  {
    if a == [] {
      assert a + b == b;
    } else {
      assert (a + b)[1..] == a[1..] + b;
      CountConcat(a[1..], b);
    }
  }

  /** Each node before its children, and these before the next node. */
  function Preorder(ts: seq<Tree>): seq<nat> {
    if ts == [] then [] else [ts[0].id] + Preorder(ts[0].kids) + Preorder(ts[1..])
  }

  lemma {:induction false} PreorderConcat(a: seq<Tree>, b: seq<Tree>)
    ensures Preorder(a + b) == Preorder(a) + Preorder(b)
  {
    if a == [] {
      assert a + b == b;
    } else {
      assert (a + b)[1..] == a[1..] + b;
      PreorderConcat(a[1..], b);
    }
  }

  // ---------------------------------------------------------------------------------------------
  // The final tree

  predicate MovesUp(f: Facts, t: Tree) { t.kids != [] && !f.prompt(t.id) && f.kind(t.id) != ChoiceItem }

  function Flatten(f: Facts, ts: seq<Tree>): seq<Tree>
    decreases Count(ts)
  {
    if ts == [] then []
    else if MovesUp(f, ts[0]) then
      CountConcat(ts[0].kids, ts[1..]);
      [Node(ts[0].id, [])] + Flatten(f, ts[0].kids + ts[1..])
    else [ts[0]] + Flatten(f, ts[1..])
  }

  function RemoveIfs(f: Facts, ts: seq<Tree>): seq<Tree> {
    if ts == [] then []
    else if f.kind(ts[0].id) == IfItem then RemoveIfs(f, ts[1..])
    else [ts[0]] + RemoveIfs(f, ts[1..])
  }

  function Level(f: Facts, ts: seq<Tree>): seq<Tree> { RemoveIfs(f, Flatten(f, ts)) }

  /** The first entry of a level finalized, and the entries that it left in the level. */
  datatype Head = Head(first: Tree, rest: seq<Tree>)

  function FinalizeHead(f: Facts, ts: seq<Tree>): (r: Head)
    requires ts != []
    ensures Count(r.rest) < Count(ts) && r.first.id == ts[0].id
    decreases Count(ts), 1
  {
    var t := ts[0];
    if f.kind(t.id) == SymbolItem then
      var a := Absorb(f, t.id, ts[1..]);
      if a.kids == [] then Head(Node(t.id, Level(f, t.kids)), ts[1..]) else Head(Node(t.id, Level(f, a.kids)), a.rest)
    else Head(Node(t.id, Level(f, FinalizeAll(f, t.kids))), ts[1..])
  }

  datatype Absorbed = Absorbed(kids: seq<Tree>, rest: seq<Tree>)

  /** The implicit submenu of symbol `s`, finalized. */
  function Absorb(f: Facts, s: nat, ts: seq<Tree>): (r: Absorbed)
    ensures Count(r.rest) <= Count(ts) && (r.kids == [] ==> r.rest == ts)
    decreases Count(ts), 2
  {
    if ts == [] || !f.auto(s, ts[0].id) then Absorbed([], ts)
    else
      var h := FinalizeHead(f, ts);
      var more := Absorb(f, s, h.rest);
      Absorbed([h.first] + more.kids, more.rest)
  }

  function FinalizeAll(f: Facts, ts: seq<Tree>): (r: seq<Tree>)
    ensures r == [] <==> ts == []
    decreases Count(ts), 2
  {
    if ts == [] then [] else var h := FinalizeHead(f, ts); [h.first] + FinalizeAll(f, h.rest)
  }

  // ---------------------------------------------------------------------------------------------
  // Order

  /** The nodes other than ifs. */
  function Kept(f: Facts, ids: seq<nat>): seq<nat> {
    if ids == [] then [] else (if f.kind(ids[0]) == IfItem then [] else [ids[0]]) + Kept(f, ids[1..])
  }

  lemma {:induction false} KeptConcat(f: Facts, a: seq<nat>, b: seq<nat>)
    ensures Kept(f, a + b) == Kept(f, a) + Kept(f, b)
  {
    if a == [] {
      assert a + b == b;
    } else {
      assert (a + b)[1..] == a[1..] + b;
      KeptConcat(f, a[1..], b);
    }
  }

  /** `if` entries never have a prompt. */
  ghost predicate IfsUnprompted(f: Facts) { forall n :: f.kind(n) == IfItem ==> !f.prompt(n) }

  /** Only ifs, menus and choices have children before the tree is finalized. */
  predicate Parsed(f: Facts, ts: seq<Tree>) {
    ts != [] ==> (f.kind(ts[0].id) == SymbolItem ==> ts[0].kids == []) && Parsed(f, ts[0].kids) && Parsed(f, ts[1..])
  }

  lemma {:induction false} PreorderCons(t: Tree, ts: seq<Tree>)
    ensures Preorder([t] + ts) == [t.id] + Preorder(t.kids) + Preorder(ts)
  {
    assert ([t] + ts)[1..] == ts;
  }

  /** Flattening changes only the nesting. */
  lemma {:induction false} FlattenOrder(f: Facts, ts: seq<Tree>)
    ensures Preorder(Flatten(f, ts)) == Preorder(ts)
    decreases Count(ts)
  {
    hide Preorder;
    if ts != [] {
      var t := ts[0];
      assert ts == [t] + ts[1..];
      PreorderCons(t, ts[1..]);
      if MovesUp(f, t) {
        CountConcat(t.kids, ts[1..]);
        FlattenOrder(f, t.kids + ts[1..]);
        PreorderConcat(t.kids, ts[1..]);
        PreorderCons(Node(t.id, []), Flatten(f, t.kids + ts[1..]));
        assert Preorder([]) == [] by { PreorderEmpty(); }
      } else {
        FlattenOrder(f, ts[1..]);
        PreorderCons(t, Flatten(f, ts[1..]));
      }
    }
  }

  lemma {:induction false} PreorderEmpty()
    ensures Preorder([]) == []
  {
  }

  /** Once flattened, ifs have no children, so that removing them loses nothing else. */
  predicate Flat(f: Facts, ts: seq<Tree>) { forall k :: 0 <= k < |ts| ==> !MovesUp(f, ts[k]) }

  lemma {:induction false} FlattenIsFlat(f: Facts, ts: seq<Tree>)
    ensures Flat(f, Flatten(f, ts))
    decreases Count(ts)
  {
    if ts != [] {
      if MovesUp(f, ts[0]) {
        CountConcat(ts[0].kids, ts[1..]);
        FlattenIsFlat(f, ts[0].kids + ts[1..]);
      } else {
        FlattenIsFlat(f, ts[1..]);
      }
    }
  }

  lemma {:induction false} RemoveIfsOrder(f: Facts, ts: seq<Tree>)
    requires Flat(f, ts) && IfsUnprompted(f)
    ensures Kept(f, Preorder(RemoveIfs(f, ts))) == Kept(f, Preorder(ts))
  {
    if ts != [] {
      RemoveIfsOrder(f, ts[1..]);
      var t := ts[0];
      var before := [t.id] + Preorder(t.kids);
      KeptConcat(f, before, Preorder(ts[1..]));
      if f.kind(t.id) == IfItem {
        assert !MovesUp(f, t);
        assert before == [t.id];
      } else {
        var r := RemoveIfs(f, ts[1..]);
        assert ([t] + r)[1..] == r;
        KeptConcat(f, before, Preorder(r));
      }
    }
  }

  lemma {:induction false} LevelOrder(f: Facts, ts: seq<Tree>)
    requires IfsUnprompted(f)
    ensures Kept(f, Preorder(Level(f, ts))) == Kept(f, Preorder(ts))
  {
    FlattenOrder(f, ts);
    FlattenIsFlat(f, ts);
    RemoveIfsOrder(f, Flatten(f, ts));
  }

  /** The order of a level that starts with `t`. */
  lemma {:induction false} OrderCons(f: Facts, t: Tree, ts: seq<Tree>)
    ensures Kept(f, Preorder([t] + ts)) == Kept(f, [t.id]) + Kept(f, Preorder(t.kids)) + Kept(f, Preorder(ts))
  {
    var all := [t] + ts;
    assert all[0] == t && all[1..] == ts;
    KeptConcat(f, [t.id] + Preorder(t.kids), Preorder(ts));
    KeptConcat(f, [t.id], Preorder(t.kids));
  }

  lemma {:induction false} HeadOrder(f: Facts, ts: seq<Tree>)
    requires ts != [] && Parsed(f, ts) && IfsUnprompted(f)
    ensures var h := FinalizeHead(f, ts);
            Kept(f, Preorder([h.first] + h.rest)) == Kept(f, Preorder(ts)) && Parsed(f, h.rest)
    decreases Count(ts), 1
  {
    hide Preorder, Kept, Level;
    var t, h := ts[0], FinalizeHead(f, ts);
    assert ts == [t] + ts[1..];
    OrderCons(f, t, ts[1..]);
    OrderCons(f, h.first, h.rest);
    if f.kind(t.id) == SymbolItem {
      AbsorbOrder(f, t.id, ts[1..]);
      var a := Absorb(f, t.id, ts[1..]);
      KeptConcat(f, Preorder(a.kids), Preorder(a.rest));
      PreorderConcat(a.kids, a.rest);
      LevelOrder(f, if a.kids == [] then t.kids else a.kids);
      EmptyOrder(f);
    } else {
      AllOrder(f, t.kids);
      LevelOrder(f, FinalizeAll(f, t.kids));
    }
  }

  lemma {:induction false} EmptyOrder(f: Facts)
    ensures Kept(f, Preorder([])) == []
  {
  }

  lemma {:induction false} AbsorbOrder(f: Facts, s: nat, ts: seq<Tree>)
    requires Parsed(f, ts) && IfsUnprompted(f)
    ensures var a := Absorb(f, s, ts); Kept(f, Preorder(a.kids + a.rest)) == Kept(f, Preorder(ts)) && Parsed(f, a.rest)
    decreases Count(ts), 2
  {
    hide Preorder, Kept, Level, FinalizeHead;
    var a := Absorb(f, s, ts);
    if a.kids == [] {
      assert a.kids + a.rest == ts;
    } else {
      var h := FinalizeHead(f, ts);
      HeadOrder(f, ts);
      AbsorbOrder(f, s, h.rest);
      var more := Absorb(f, s, h.rest);
      assert a.kids + a.rest == [h.first] + (more.kids + more.rest);
      OrderCons(f, h.first, more.kids + more.rest);
      OrderCons(f, h.first, h.rest);
    }
  }

  /** Finalizing keeps the order of all nodes but the ifs. */
  lemma {:induction false} AllOrder(f: Facts, ts: seq<Tree>)
    requires Parsed(f, ts) && IfsUnprompted(f)
    ensures Kept(f, Preorder(FinalizeAll(f, ts))) == Kept(f, Preorder(ts))
    decreases Count(ts), 2
  {
    hide Preorder, Kept, Level, FinalizeHead;
    if ts != [] {
      var h := FinalizeHead(f, ts);
      HeadOrder(f, ts);
      AllOrder(f, h.rest);
      OrderCons(f, h.first, FinalizeAll(f, h.rest));
      OrderCons(f, h.first, h.rest);
    }
  }

  // ---------------------------------------------------------------------------------------------
  // Shape

  /** No ifs, and children only below choices and entries with a prompt. */
  predicate Tidy(f: Facts, ts: seq<Tree>) {
    ts != [] ==>
      && f.kind(ts[0].id) != IfItem && (ts[0].kids != [] ==> f.prompt(ts[0].id) || f.kind(ts[0].id) == ChoiceItem)
      && Tidy(f, ts[0].kids) && Tidy(f, ts[1..])
  }

  predicate KidsTidy(f: Facts, ts: seq<Tree>) { ts != [] ==> Tidy(f, ts[0].kids) && KidsTidy(f, ts[1..]) }

  lemma {:induction false} KidsTidyConcat(f: Facts, a: seq<Tree>, b: seq<Tree>)
    requires KidsTidy(f, b) && (Tidy(f, a) || KidsTidy(f, a))
    ensures KidsTidy(f, a + b)
  {
    if a == [] {
      assert a + b == b;
    } else {
      assert (a + b)[1..] == a[1..] + b;
      KidsTidyConcat(f, a[1..], b);
    }
  }

  lemma {:induction false} FlattenTidy(f: Facts, ts: seq<Tree>)
    requires KidsTidy(f, ts)
    ensures KidsTidy(f, Flatten(f, ts))
    decreases Count(ts)
  {
    if ts != [] {
      if MovesUp(f, ts[0]) {
        CountConcat(ts[0].kids, ts[1..]);
        KidsTidyConcat(f, ts[0].kids, ts[1..]);
        FlattenTidy(f, ts[0].kids + ts[1..]);
        KidsTidyConcat(f, [Node(ts[0].id, [])], Flatten(f, ts[0].kids + ts[1..]));
      } else {
        FlattenTidy(f, ts[1..]);
        KidsTidyConcat(f, [ts[0]], Flatten(f, ts[1..]));
      }
    }
  }

  lemma {:induction false} RemoveIfsTidy(f: Facts, ts: seq<Tree>)
    requires KidsTidy(f, ts) && Flat(f, ts)
    ensures Tidy(f, RemoveIfs(f, ts))
  {
    if ts != [] {
      RemoveIfsTidy(f, ts[1..]);
      var r := RemoveIfs(f, ts[1..]);
      assert ([ts[0]] + r)[1..] == r;
    }
  }

  lemma {:induction false} LevelTidy(f: Facts, ts: seq<Tree>)
    requires KidsTidy(f, ts)
    ensures Tidy(f, Level(f, ts))
  {
    FlattenTidy(f, ts);
    FlattenIsFlat(f, ts);
    RemoveIfsTidy(f, Flatten(f, ts));
  }

  lemma {:induction false} HeadTidy(f: Facts, ts: seq<Tree>)
    requires ts != [] && Parsed(f, ts)
    ensures var h := FinalizeHead(f, ts); Tidy(f, h.first.kids) && Parsed(f, h.rest)
    decreases Count(ts), 1
  {
    hide Level, Tidy;
    var t := ts[0];
    if f.kind(t.id) == SymbolItem {
      AbsorbTidy(f, t.id, ts[1..]);
      var a := Absorb(f, t.id, ts[1..]);
      LevelTidy(f, if a.kids == [] then t.kids else a.kids);
    } else {
      AllTidy(f, t.kids);
      LevelTidy(f, FinalizeAll(f, t.kids));
    }
  }

  lemma {:induction false} AbsorbTidy(f: Facts, s: nat, ts: seq<Tree>)
    requires Parsed(f, ts)
    ensures var a := Absorb(f, s, ts); KidsTidy(f, a.kids) && Parsed(f, a.rest)
    decreases Count(ts), 2
  {
    hide Tidy, FinalizeHead;
    if ts != [] && f.auto(s, ts[0].id) {
      var h := FinalizeHead(f, ts);
      HeadTidy(f, ts);
      AbsorbTidy(f, s, h.rest);
      var more := Absorb(f, s, h.rest).kids;
      assert ([h.first] + more)[1..] == more;
    }
  }

  lemma {:induction false} AllTidy(f: Facts, ts: seq<Tree>)
    requires Parsed(f, ts)
    ensures KidsTidy(f, FinalizeAll(f, ts))
    decreases Count(ts), 2
  {
    hide Tidy, FinalizeHead;
    if ts != [] {
      var h := FinalizeHead(f, ts);
      HeadTidy(f, ts);
      AllTidy(f, h.rest);
      var more := FinalizeAll(f, h.rest);
      assert ([h.first] + more)[1..] == more;
    }
  }

  // ---------------------------------------------------------------------------------------------
  // The whole tree

  /** The children of the top node, finalized. */
  function Final(f: Facts, ts: seq<Tree>): seq<Tree> { Level(f, FinalizeAll(f, ts)) }

  function OfKind(f: Facts, k: Kind, ids: seq<nat>): seq<nat> {
    if ids == [] then [] else (if f.kind(ids[0]) == k then [ids[0]] else []) + OfKind(f, k, ids[1..])
  }

  lemma {:induction false} OfKindKept(f: Facts, k: Kind, ids: seq<nat>)
    requires k != IfItem
    ensures OfKind(f, k, Kept(f, ids)) == OfKind(f, k, ids)
  {
    if ids != [] {
      OfKindKept(f, k, ids[1..]);
      var r := Kept(f, ids[1..]);
      if f.kind(ids[0]) == IfItem { assert [] + r == r; } else { assert ([ids[0]] + r)[1..] == r; }
    }
  }

  lemma {:induction false} TidyHasNoIfs(f: Facts, ts: seq<Tree>)
    requires Tidy(f, ts)
    ensures Kept(f, Preorder(ts)) == Preorder(ts)
  {
    if ts != [] {
      TidyHasNoIfs(f, ts[0].kids);
      TidyHasNoIfs(f, ts[1..]);
      assert ts == [ts[0]] + ts[1..];
      OrderCons(f, ts[0], ts[1..]);
    }
  }

  /**
    In the final tree a walk meets exactly the nodes other than ifs, in definition order; in
    particular its symbols are the defined symbols, in definition order.
    */
  lemma {:induction false} FinalOrder(f: Facts, ts: seq<Tree>)
    requires Parsed(f, ts) && IfsUnprompted(f)
    ensures Preorder(Final(f, ts)) == Kept(f, Preorder(ts)) && Tidy(f, Final(f, ts))
    ensures OfKind(f, SymbolItem, Preorder(Final(f, ts))) == OfKind(f, SymbolItem, Preorder(ts))
  {
    hide Preorder, Kept, Level, FinalizeAll, Tidy, OfKind;
    var all := FinalizeAll(f, ts);
    AllOrder(f, ts);
    LevelOrder(f, all);
    AllTidy(f, ts);
    LevelTidy(f, all);
    TidyHasNoIfs(f, Final(f, ts));
    OfKindKept(f, SymbolItem, Preorder(ts));
  }
}
