/**
  The menu tree as linked nodes: `next`, `list` and `parent` of every node, rewritten in place. `Rep`
  says that the links below some node form a given tree.
  */
module MenuLinks {
  import opened Basics
  import opened MenuTree

  /** The links of the nodes, by number. */
  datatype Links = Links(next: seq<Option<nat>>, list: seq<Option<nat>>, parent: seq<Option<nat>>) {
    predicate Has(n: nat) { n < |next| && n < |list| && n < |parent| }

    function SetNext(n: nat, x: Option<nat>): Links
      requires Has(n)
    {
      this.(next := next[n := x])
    }

    function SetList(n: nat, x: Option<nat>): Links
      requires Has(n)
    {
      this.(list := list[n := x])
    }

    function SetParent(n: nat, x: Option<nat>): Links
      requires Has(n)
    {
      this.(parent := parent[n := x])
    }
  }

  /** The first node of a level, or what follows an empty one. */
  function First(ts: seq<Tree>, tail: Option<nat>): Option<nat> { if ts == [] then tail else Some(ts[0].id) }

  predicate Linked(h: Links, t: Tree, p: Option<nat>, next: Option<nat>) {
    h.Has(t.id) && h.parent[t.id] == p && h.list[t.id] == First(t.kids, None) && h.next[t.id] == next
  }

  /** The nodes of `ts` are linked as siblings below `p`; the last one links to `tail`. */
  ghost predicate Rep(h: Links, ts: seq<Tree>, p: Option<nat>, tail: Option<nat>) {
    ts != [] ==>
      && Linked(h, ts[0], p, First(ts[1..], tail))
      && Rep(h, ts[0].kids, Some(ts[0].id), None) && Rep(h, ts[1..], p, tail)
  }

  function Ids(ts: seq<Tree>): set<nat> { if ts == [] then {} else {ts[0].id} + Ids(ts[0].kids) + Ids(ts[1..]) }

  /** No node occurs twice. */
  predicate Unique(ts: seq<Tree>) {
    ts != [] ==>
      && ts[0].id !in Ids(ts[0].kids) && ts[0].id !in Ids(ts[1..]) && Ids(ts[0].kids) !! Ids(ts[1..])
      && Unique(ts[0].kids) && Unique(ts[1..])
  }

  /** `h` and `k` agree on node `n`. */
  predicate SameAt(h: Links, k: Links, n: nat) {
    h.Has(n) ==> k.Has(n) && h.next[n] == k.next[n] && h.list[n] == k.list[n] && h.parent[n] == k.parent[n]
  }

  ghost predicate SameOn(h: Links, k: Links, ns: set<nat>) { forall n :: n in ns ==> SameAt(h, k, n) }

  ghost predicate SameOutside(h: Links, k: Links, ns: set<nat>) { forall n :: n !in ns ==> SameAt(h, k, n) }

  // ---------------------------------------------------------------------------------------------
  // Frames and concatenation

  lemma {:induction false} RepFrame(h: Links, k: Links, ts: seq<Tree>, p: Option<nat>, tail: Option<nat>)
    requires Rep(h, ts, p, tail) && SameOn(h, k, Ids(ts))
    ensures Rep(k, ts, p, tail)
  {
    if ts != [] {
      assert SameAt(h, k, ts[0].id);
      RepFrame(h, k, ts[0].kids, Some(ts[0].id), None);
      RepFrame(h, k, ts[1..], p, tail);
    }
  }

  lemma {:induction false} RepConcat(h: Links, a: seq<Tree>, b: seq<Tree>, p: Option<nat>, tail: Option<nat>)
    ensures Rep(h, a + b, p, tail) <==> Rep(h, a, p, First(b, tail)) && Rep(h, b, p, tail)
  {
    if a == [] {
      assert a + b == b;
    } else {
      assert (a + b)[1..] == a[1..] + b;
      RepConcat(h, a[1..], b, p, tail);
    }
  }

  lemma {:induction false} IdsConcat(a: seq<Tree>, b: seq<Tree>)
    ensures Ids(a + b) == Ids(a) + Ids(b)
  {
    if a == [] {
      assert a + b == b;
    } else {
      assert (a + b)[1..] == a[1..] + b;
      IdsConcat(a[1..], b);
    }
  }

  lemma {:induction false} UniqueConcat(a: seq<Tree>, b: seq<Tree>)
    ensures Unique(a + b) <==> Unique(a) && Unique(b) && Ids(a) !! Ids(b)
  {
    if a == [] {
      assert a + b == b;
    } else {
      assert (a + b)[1..] == a[1..] + b;
      UniqueConcat(a[1..], b);
      IdsConcat(a[1..], b);
    }
  }

  lemma {:induction false} RepOne(h: Links, t: Tree, p: Option<nat>, tail: Option<nat>)
    ensures Rep(h, [t], p, tail) <==> Linked(h, t, p, tail) && Rep(h, t.kids, Some(t.id), None)
    ensures Ids([t]) == {t.id} + Ids(t.kids) && (Unique([t]) <==> t.id !in Ids(t.kids) && Unique(t.kids))
  {
    assert [t][1..] == [];
  }

  /** All about joining two runs of siblings. */
  lemma {:induction false} Join(h: Links, a: seq<Tree>, b: seq<Tree>, p: Option<nat>, tail: Option<nat>)
    ensures Rep(h, a + b, p, tail) <==> Rep(h, a, p, First(b, tail)) && Rep(h, b, p, tail)
    ensures Ids(a + b) == Ids(a) + Ids(b)
    ensures Unique(a + b) <==> Unique(a) && Unique(b) && Ids(a) !! Ids(b)
  {
    RepConcat(h, a, b, p, tail);
    IdsConcat(a, b);
    UniqueConcat(a, b);
  }

  /** Redirecting the last sibling. */
  lemma {:induction false} SetTail(h: Links, a: seq<Tree>, last: Tree, p: Option<nat>, tail: Option<nat>, x: Option<nat>)
    requires Rep(h, a + [last], p, tail) && Unique(a + [last])
    ensures h.Has(last.id) && Rep(h.SetNext(last.id, x), a + [last], p, x)
  {
    hide Rep, Ids, Unique;
    Join(h, a, [last], p, tail);
    RepOne(h, last, p, tail);
    var k := h.SetNext(last.id, x);
    RepFrame(h, k, a, p, Some(last.id));
    RepFrame(h, k, last.kids, Some(last.id), None);
    RepOne(k, last, p, x);
    Join(k, a, [last], p, x);
  }

  /** Hanging one sibling below another node. */
  lemma {:induction false} SetParentOne(h: Links, t: Tree, p: Option<nat>, tail: Option<nat>, x: Option<nat>)
    requires Rep(h, [t], p, tail) && Unique([t])
    ensures h.Has(t.id) && Rep(h.SetParent(t.id, x), [t], x, tail)
  {
    hide Rep, Ids, Unique;
    RepOne(h, t, p, tail);
    var k := h.SetParent(t.id, x);
    RepFrame(h, k, t.kids, Some(t.id), None);
    RepOne(k, t, x, tail);
  }
}
