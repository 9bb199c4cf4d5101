/** The iterative walk over the menu tree: down, then sideways, then up until there is a next node. */
module MenuWalk {
  import opened Basics
  import opened MenuTree
  import opened MenuLinks
  import opened MenuFinalize
  import opened MenuNesting

  /** The siblings behind a node, and the parent of the level. */
  datatype Frame = Frame(parent: Option<nat>, behind: seq<Tree>)

  /** What is left to visit behind node `n`, level by level up to the top node. */
  ghost predicate Around(h: Links, n: nat, frames: seq<Frame>)
    decreases |frames|
  {
    && frames != [] && h.Has(n) && h.parent[n] == frames[0].parent && h.next[n] == First(frames[0].behind, None)
    && Rep(h, frames[0].behind, frames[0].parent, None)
    && match frames[0].parent
       case None => |frames| == 1 && frames[0].behind == []
       case Some(p) => Around(h, p, frames[1..])
  }

  function Left(frames: seq<Frame>): seq<nat> {
    if frames == [] then [] else Preorder(frames[0].behind) + Left(frames[1..])
  }

  function LeftCount(frames: seq<Frame>): nat {
    if frames == [] then 0 else Count(frames[0].behind) + LeftCount(frames[1..])
  }

  /** Where the walk stands: at node `n` with children `kids`. */
  ghost predicate Standing(h: Links, n: nat, kids: seq<Tree>, frames: seq<Frame>) {
    h.Has(n) && h.list[n] == First(kids, None) && Rep(h, kids, Some(n), None) && Around(h, n, frames)
  }

  lemma {:induction false} LeftCons(fr: Frame, frames: seq<Frame>)
    ensures Left([fr] + frames) == Preorder(fr.behind) + Left(frames)
    ensures LeftCount([fr] + frames) == Count(fr.behind) + LeftCount(frames)
  {
    assert ([fr] + frames)[1..] == frames;
  }

  /** Visiting `t`, its children and then its siblings. */
  lemma {:induction false} VisitFirst(ts: seq<Tree>, left: seq<nat>)
    requires ts != []
    ensures Preorder(ts) + left == [ts[0].id] + (Preorder(ts[0].kids) + (Preorder(ts[1..]) + left))
    ensures Count(ts) == 1 + Count(ts[0].kids) + Count(ts[1..])
  {
    Reassociate([ts[0].id], Preorder(ts[0].kids), Preorder(ts[1..]), left);
  }

  lemma {:induction false} Reassociate(a: seq<nat>, b: seq<nat>, c: seq<nat>, d: seq<nat>)
    ensures a + b + c + d == a + (b + (c + d))
  {
  }

  lemma {:induction false} GoDown(h: Links, n: nat, kids: seq<Tree>, frames: seq<Frame>)
    requires Standing(h, n, kids, frames) && kids != []
    ensures var t, under := kids[0], [Frame(Some(n), kids[1..])] + frames;
            && Standing(h, t.id, t.kids, under)
            && Preorder(kids) + Left(frames) == [t.id] + (Preorder(t.kids) + Left(under))
            && Count(t.kids) + LeftCount(under) < Count(kids) + LeftCount(frames)
  {
    hide Preorder, Left, LeftCount, Count;
    var under := [Frame(Some(n), kids[1..])] + frames;
    assert under[1..] == frames;
    LeftCons(Frame(Some(n), kids[1..]), frames);
    VisitFirst(kids, Left(frames));
  }

  lemma {:induction false} GoNext(h: Links, n: nat, frames: seq<Frame>)
    requires Around(h, n, frames) && frames[0].behind != []
    ensures var t, after := frames[0].behind[0], [Frame(frames[0].parent, frames[0].behind[1..])] + frames[1..];
            && Standing(h, t.id, t.kids, after)
            && Left(frames) == [t.id] + (Preorder(t.kids) + Left(after))
            && Count(t.kids) + LeftCount(after) < LeftCount(frames)
  {
    hide Preorder, Left, LeftCount, Count;
    var fr := Frame(frames[0].parent, frames[0].behind[1..]);
    var after := [fr] + frames[1..];
    assert after[1..] == frames[1..] && frames == [frames[0]] + frames[1..];
    LeftCons(fr, frames[1..]);
    LeftCons(frames[0], frames[1..]);
    VisitFirst(frames[0].behind, Left(frames[1..]));
  }

  lemma {:induction false} GoUp(h: Links, n: nat, frames: seq<Frame>)
    requires Around(h, n, frames) && frames[0].behind == []
    ensures frames[0].parent.None? ==> Left(frames) == []
    ensures frames[0].parent.Some? ==>
            Around(h, frames[0].parent.value, frames[1..]) && Left(frames) == Left(frames[1..]) && LeftCount(frames) == LeftCount(frames[1..])
  {
  }

  lemma {:induction false} StartWalk(h: Links, top: nat, ts: seq<Tree>)
    requires Rep(h, [Node(top, ts)], None, None)
    ensures Standing(h, top, ts, [Frame(None, [])])
    ensures Preorder(ts) + Left([Frame(None, [])]) == Preorder(ts)
  {
    RepOne(h, Node(top, ts), None, None);
    assert Left([Frame(None, [])]) == [];
  }

  /** What the walk yields of the nodes it visits: all of them, or for each symbol its first node only. */
  function Yielded(f: Facts, item: nat -> nat, unique: bool, ids: seq<nat>, seen: set<nat>): seq<nat> {
    if ids == [] then []
    else if f.kind(ids[0]) != SymbolItem then [ids[0]] + Yielded(f, item, unique, ids[1..], seen)
    else if unique && item(ids[0]) in seen then Yielded(f, item, unique, ids[1..], seen)
    else [ids[0]] + Yielded(f, item, unique, ids[1..], seen + {item(ids[0])})
  }

  lemma {:induction false} YieldFirst(f: Facts, item: nat -> nat, unique: bool, done: seq<nat>, n: nat, ids: seq<nat>, seen: set<nat>)
    ensures var skip := unique && f.kind(n) == SymbolItem && item(n) in seen;
            var seen' := if f.kind(n) == SymbolItem then seen + {item(n)} else seen;
            done + Yielded(f, item, unique, [n] + ids, seen) ==
            (if skip then done else done + [n]) + Yielded(f, item, unique, ids, seen')
  {
    var all := [n] + ids;
    assert all[0] == n && all[1..] == ids;
    if f.kind(n) == SymbolItem && item(n) in seen { assert seen + {item(n)} == seen; }
  }

  /** The walk ends, and visits every node below `top` once, in order. */
  method NodeIter(f: Facts, item: nat -> nat, h: Links, top: nat, unique: bool, ghost ts: seq<Tree>) returns (order: seq<nat>)
    requires Rep(h, [Node(top, ts)], None, None)
    ensures order == Yielded(f, item, unique, Preorder(ts), {})
  {
    hide Rep, Preorder, Around, Left, LeftCount, Count, Yielded;
    var node, seen := top, {};
    order := [];
    ghost var kids, frames := ts, [Frame(None, [])];
    StartWalk(h, top, ts);
    while true
      invariant Standing(h, node, kids, frames)
      invariant order + Yielded(f, item, unique, Preorder(kids) + Left(frames), seen)
             == Yielded(f, item, unique, Preorder(ts), {})
      decreases Count(kids) + LeftCount(frames)
    {
      Inside(h, node, frames);
      ghost var n, left := node, Preorder(kids) + Left(frames);
      if h.list[node].Some? {
        GoDown(h, node, kids, frames);
        node := h.list[node].value;
        frames := [Frame(Some(n), kids[1..])] + frames;
        kids := kids[0].kids;
      } else if h.next[node].Some? {
        NoKids(kids, Left(frames));
        GoNext(h, node, frames);
        node := h.next[node].value;
        kids := frames[0].behind[0].kids;
        frames := [Frame(frames[0].parent, frames[0].behind[1..])] + frames[1..];
      } else {
        NoKids(kids, Left(frames));
        ghost var most := LeftCount(frames);
        while h.parent[node].Some?
          invariant Around(h, node, frames) && h.Has(node) && frames != [] && h.parent[node] == frames[0].parent
          invariant h.next[node] == First(frames[0].behind, None) && frames[0].behind == []
          invariant Left(frames) == left && LeftCount(frames) == most
          decreases |frames|
        {
          GoUp(h, node, frames);
          node := h.parent[node].value;
          frames := frames[1..];
          Inside(h, node, frames);
          if h.next[node].Some? { break; }
        }
        if h.next[node].None? {
          GoUp(h, node, frames);
          NothingYielded(f, item, unique, order, seen);
          return;
        }
        GoNext(h, node, frames);
        node := h.next[node].value;
        kids := frames[0].behind[0].kids;
        frames := [Frame(frames[0].parent, frames[0].behind[1..])] + frames[1..];
      }
      YieldFirst(f, item, unique, order, node, Preorder(kids) + Left(frames), seen);
      if f.kind(node) == SymbolItem {
        if unique && item(node) in seen {
          assert seen + {item(node)} == seen;
          continue;
        }
        seen := seen + {item(node)};
      }
      order := order + [node];
    }
  }

  lemma {:induction false} Inside(h: Links, n: nat, frames: seq<Frame>)
    requires Around(h, n, frames)
    ensures frames != [] && h.Has(n) && h.parent[n] == frames[0].parent && h.next[n] == First(frames[0].behind, None)
  {
  }

  lemma {:induction false} NoKids(kids: seq<Tree>, left: seq<nat>)
    requires kids == []
    ensures Preorder(kids) + left == left && Count(kids) == 0
  {
  }

  lemma {:induction false} NothingYielded(f: Facts, item: nat -> nat, unique: bool, done: seq<nat>, seen: set<nat>)
    ensures done + Yielded(f, item, unique, [], seen) == done
  {
  }

  lemma {:induction false} AllYielded(f: Facts, item: nat -> nat, ids: seq<nat>, seen: set<nat>)
    ensures Yielded(f, item, false, ids, seen) == ids
    decreases |ids|
  {
    if ids != [] {
      AllYielded(f, item, ids[1..], if f.kind(ids[0]) == SymbolItem then seen + {item(ids[0])} else seen);
    }
  }

  /** The symbols of the symbol nodes. */
  function Symbols(f: Facts, item: nat -> nat, ids: seq<nat>): seq<nat> {
    if ids == [] then [] else (if f.kind(ids[0]) == SymbolItem then [item(ids[0])] else []) + Symbols(f, item, ids[1..])
  }

  /** First occurrences, in order. */
  function OrderedUnique(xs: seq<nat>, seen: set<nat>): seq<nat> {
    if xs == [] then []
    else if xs[0] in seen then OrderedUnique(xs[1..], seen)
    else [xs[0]] + OrderedUnique(xs[1..], seen + {xs[0]})
  }

  /** The symbols yielded are all symbols visited, or each of them once. */
  lemma {:induction false} YieldedSymbols(f: Facts, item: nat -> nat, unique: bool, ids: seq<nat>, seen: set<nat>)
    ensures var syms := Symbols(f, item, ids);
            Symbols(f, item, Yielded(f, item, unique, ids, seen)) == if unique then OrderedUnique(syms, seen) else syms
    decreases |ids|
  {
    if ids != [] {
      var n, rest := ids[0], ids[1..];
      var seen' := if f.kind(n) == SymbolItem && !(unique && item(n) in seen) then seen + {item(n)} else seen;
      YieldedSymbols(f, item, unique, rest, seen');
      var more := Yielded(f, item, unique, rest, seen');
      assert ([n] + more)[1..] == more;
      var syms := Symbols(f, item, rest);
      assert ([item(n)] + syms)[1..] == syms && [] + syms == syms;
    }
  }

  lemma {:induction false} SymbolsKept(f: Facts, item: nat -> nat, ids: seq<nat>)
    ensures Symbols(f, item, Kept(f, ids)) == Symbols(f, item, ids)
  {
    if ids != [] {
      SymbolsKept(f, item, ids[1..]);
      var r := Kept(f, ids[1..]);
      if f.kind(ids[0]) == IfItem { assert [] + r == r; } else { assert ([ids[0]] + r)[1..] == r; }
    }
  }

  /**
    Finalizing the tree below `top` and walking over it gives the parsed nodes in definition order,
    without the ifs; the symbols are the defined symbols, or the unique ones of them. Below each node
    of the tree is what belongs there.
    */
  method FinalizeMenu(f: Facts, item: nat -> nat, links: Links, top: nat, unique: bool, ghost ts: seq<Tree>)
    returns (h: Links, order: seq<nat>)
    requires Rep(links, [Node(top, ts)], None, None) && Unique([Node(top, ts)])
    requires f.kind(top) == MenuItem && Parsed(f, ts) && IfsUnprompted(f)
    ensures Rep(h, [Node(top, Final(f, ts))], None, None) && Spans(Final(f, ts)) == Nested(f, ts)
    ensures order == Yielded(f, item, unique, Kept(f, Preorder(ts)), {}) && (!unique ==> order == Kept(f, Preorder(ts)))
    ensures var defined := Symbols(f, item, Preorder(ts));
            Symbols(f, item, order) == if unique then OrderedUnique(defined, {}) else defined
  {
    hide Rep, Unique, Preorder, Kept, OfKind, Level, FinalizeAll, Yielded, Symbols, Nested, Spans;
    var m := new Menu(f, links);
    ghost var level := [Node(top, ts)];
    TopParsed(f, top, ts);
    m.FinalizeNode(top, level, None);
    assert level[1..] == [] && [Node(top, Final(f, ts))] + [] == [Node(top, Final(f, ts))];
    h := m.h;
    order := NodeIter(f, item, h, top, unique, Final(f, ts));
    FinalOrder(f, ts);
    FinalNesting(f, ts);
    AllYielded(f, item, Kept(f, Preorder(ts)), {});
    YieldedSymbols(f, item, unique, Kept(f, Preorder(ts)), {});
    SymbolsKept(f, item, Preorder(ts));
  }

  lemma {:induction false} TopParsed(f: Facts, top: nat, ts: seq<Tree>)
    requires f.kind(top) == MenuItem && Parsed(f, ts)
    ensures Parsed(f, [Node(top, ts)])
  {
    assert [Node(top, ts)][1..] == [];
  }
}
