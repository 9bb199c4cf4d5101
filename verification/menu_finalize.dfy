/** Finalizing the menu tree in place, and the walk over the result. */
module MenuFinalize {
  import opened Basics
  import opened MenuTree
  import opened MenuLinks

  // ---------------------------------------------------------------------------------------------
  // Finalizing neither repeats nor invents nodes

  /** `b` uses nodes of `a`, each at most once. */
  ghost predicate Within(b: seq<Tree>, a: seq<Tree>) { Unique(a) ==> Unique(b) && Ids(b) <= Ids(a) }

  /** Cutting `ts` into its first node, its children and the rest. */
  lemma {:induction false} Cons(t: Tree, ts: seq<Tree>)
    ensures Ids([t] + ts) == {t.id} + Ids(t.kids) + Ids(ts)
    ensures Unique([t] + ts) <==>
            t.id !in Ids(t.kids) && t.id !in Ids(ts) && Ids(t.kids) !! Ids(ts) && Unique(t.kids) && Unique(ts)
  {
    assert ([t] + ts)[1..] == ts;
  }

  lemma {:induction false} FlattenWithin(f: Facts, ts: seq<Tree>)
    ensures Within(Flatten(f, ts), ts)
    decreases Count(ts)
  {
    hide Ids, Unique;
    if ts != [] {
      var t := ts[0];
      assert ts == [t] + ts[1..];
      Cons(t, ts[1..]);
      if MovesUp(f, t) {
        CountConcat(t.kids, ts[1..]);
        IdsConcat(t.kids, ts[1..]);
        UniqueConcat(t.kids, ts[1..]);
        FlattenWithin(f, t.kids + ts[1..]);
        Cons(Node(t.id, []), Flatten(f, t.kids + ts[1..]));
        EmptyIds();
      } else {
        FlattenWithin(f, ts[1..]);
        Cons(t, Flatten(f, ts[1..]));
      }
    }
  }

  lemma {:induction false} EmptyIds()
    ensures Ids([]) == {} && Unique([])
  {
  }

  lemma {:induction false} RemoveIfsWithin(f: Facts, ts: seq<Tree>)
    ensures Within(RemoveIfs(f, ts), ts)
  {
    hide Ids, Unique;
    if ts != [] {
      var t := ts[0];
      assert ts == [t] + ts[1..];
      Cons(t, ts[1..]);
      RemoveIfsWithin(f, ts[1..]);
      Cons(t, RemoveIfs(f, ts[1..]));
    }
  }

  lemma {:induction false} LevelWithin(f: Facts, ts: seq<Tree>)
    ensures Within(Level(f, ts), ts)
  {
    hide Ids, Unique;
    FlattenWithin(f, ts);
    RemoveIfsWithin(f, Flatten(f, ts));
  }

  lemma {:induction false} HeadWithin(f: Facts, ts: seq<Tree>)
    requires ts != []
    ensures var h := FinalizeHead(f, ts); Within([h.first] + h.rest, ts)
    decreases Count(ts), 1
  {
    hide Ids, Unique, Level;
    var t, h := ts[0], FinalizeHead(f, ts);
    assert ts == [t] + ts[1..];
    Cons(t, ts[1..]);
    Cons(h.first, h.rest);
    if f.kind(t.id) == SymbolItem {
      AbsorbWithin(f, t.id, ts[1..]);
      var a := Absorb(f, t.id, ts[1..]);
      IdsConcat(a.kids, a.rest);
      UniqueConcat(a.kids, a.rest);
      LevelWithin(f, if a.kids == [] then t.kids else a.kids);
    } else {
      AllWithin(f, t.kids);
      LevelWithin(f, FinalizeAll(f, t.kids));
    }
  }

  lemma {:induction false} AbsorbWithin(f: Facts, s: nat, ts: seq<Tree>)
    ensures var a := Absorb(f, s, ts); Within(a.kids + a.rest, ts)
    decreases Count(ts), 2
  {
    hide Ids, Unique, FinalizeHead;
    var a := Absorb(f, s, ts);
    if a.kids == [] {
      assert a.kids + a.rest == ts;
    } else {
      var h := FinalizeHead(f, ts);
      HeadWithin(f, ts);
      Cons(h.first, h.rest);
      AbsorbWithin(f, s, h.rest);
      var more := Absorb(f, s, h.rest);
      assert a.kids + a.rest == [h.first] + (more.kids + more.rest);
      Cons(h.first, more.kids + more.rest);
    }
  }

  lemma {:induction false} AllWithin(f: Facts, ts: seq<Tree>)
    ensures Within(FinalizeAll(f, ts), ts)
    decreases Count(ts), 2
  {
    hide Ids, Unique, FinalizeHead;
    if ts != [] {
      var h := FinalizeHead(f, ts);
      HeadWithin(f, ts);
      Cons(h.first, h.rest);
      AllWithin(f, h.rest);
      Cons(h.first, FinalizeAll(f, h.rest));
    }
  }

  // ---------------------------------------------------------------------------------------------
  // Steps of the rewriting

  /** What `Rep` says of the first node of a level. */
  lemma {:induction false} Unfold(h: Links, ts: seq<Tree>, p: Option<nat>, tail: Option<nat>)
    requires ts != []
    ensures Rep(h, ts, p, tail) <==>
            Linked(h, ts[0], p, First(ts[1..], tail)) && Rep(h, ts[0].kids, Some(ts[0].id), None) && Rep(h, ts[1..], p, tail)
    ensures Ids(ts) == {ts[0].id} + Ids(ts[0].kids) + Ids(ts[1..])
    ensures Unique(ts) <==>
            && ts[0].id !in Ids(ts[0].kids) && ts[0].id !in Ids(ts[1..]) && Ids(ts[0].kids) !! Ids(ts[1..])
            && Unique(ts[0].kids) && Unique(ts[1..])
  {
  }

  /** The next sibling joins those before it. */
  lemma {:induction false} Advance(h: Links, done: seq<Tree>, rest: seq<Tree>, p: Option<nat>)
    requires rest != [] && Rep(h, done, p, First(rest, None)) && Rep(h, rest, p, None) && Unique(done + rest)
    ensures Rep(h, done + [rest[0]], p, First(rest[1..], None)) && Rep(h, rest[1..], p, None)
    ensures done + rest == (done + [rest[0]]) + rest[1..]
  {
    hide Rep, Ids, Unique;
    Unfold(h, rest, p, None);
    RepOne(h, rest[0], p, First(rest[1..], None));
    Join(h, done, [rest[0]], p, First(rest[1..], None));
  }

  lemma {:induction false} AdoptStep(h: Links, a: seq<Tree>, b: seq<Tree>, n: nat, p: Option<nat>)
    requires b != [] && Unique(a + b) && Rep(h, a, p, First(b, None)) && Rep(h, b, Some(n), None)
    ensures h.Has(b[0].id)
    ensures var k := h.SetParent(b[0].id, p);
            Rep(k, a + [b[0]], p, First(b[1..], None)) && Rep(k, b[1..], Some(n), None) && SameOutside(h, k, Ids(a + b))
  {
    hide Rep, Ids, Unique;
    var t, rest := b[0], b[1..];
    assert b == [t] + rest;
    Join(h, a, b, p, None);
    Join(h, [t], rest, Some(n), None);
    RepOne(h, t, Some(n), First(rest, None));
    SetParentOne(h, t, Some(n), First(rest, None), p);
    var k := h.SetParent(t.id, p);
    RepFrame(h, k, a, p, Some(t.id));
    RepFrame(h, k, rest, Some(n), None);
    Join(k, a, [t], p, First(rest, None));
  }

  /** The links after the children of `t`, already below its parent, are placed behind it. */
  function Spliced(h: Links, n: nat, last: nat): Links
    requires h.Has(n) && h.Has(last)
  {
    h.SetNext(last, h.next[n]).SetNext(n, h.list[n]).SetList(n, None)
  }

  lemma {:induction false} SpliceUp(h: Links, t: Tree, init: seq<Tree>, end: Tree, rest: seq<Tree>, p: Option<nat>)
    requires t.kids == init + [end] && Unique([t] + rest) && Linked(h, t, p, First(rest, None))
    requires Rep(h, t.kids, p, None) && Rep(h, rest, p, None)
    ensures h.Has(end.id)
    ensures var k := Spliced(h, t.id, end.id);
            Rep(k, [Node(t.id, [])] + (t.kids + rest), p, None) && SameOutside(h, k, Ids([t] + rest))
  {
    hide Rep, Ids, Unique;
    Cons(t, rest);
    SetTail(h, init, end, p, None, First(rest, None));
    Join(h, init, [end], p, None);
    RepOne(h, end, p, None);
    assert end.id in Ids(t.kids) && end.id != t.id;
    var k1, k := h.SetNext(end.id, First(rest, None)), Spliced(h, t.id, end.id);
    RepFrame(k1, k, t.kids, p, First(rest, None));
    RepFrame(h, k, rest, p, None);
    Join(k, t.kids, rest, p, None);
    var bare := Node(t.id, []);
    RepOne(k, bare, p, First(t.kids + rest, None));
    assert Rep(k, [], Some(t.id), None) by { EmptyRep(k, Some(t.id), None); }
    Join(k, [bare], t.kids + rest, p, None);
  }

  lemma {:induction false} EmptyRep(h: Links, p: Option<nat>, tail: Option<nat>)
    ensures Rep(h, [], p, tail)
  {
  }

  lemma {:induction false} SameTrans(a: Links, b: Links, c: Links, s: set<nat>, t: set<nat>)
    requires SameOutside(a, b, s) && SameOutside(b, c, t)
    ensures SameOutside(a, c, s + t)
  {
  }

  /** A level cut in two, as it is while a pass over it goes on. */
  ghost predicate Between(h: Links, done: seq<Tree>, rest: seq<Tree>, p: Option<nat>) {
    Rep(h, done, p, First(rest, None)) && Rep(h, rest, p, None) && Unique(done + rest)
  }

  lemma {:induction false} StartLevel(f: Facts, h: Links, ts: seq<Tree>, p: Option<nat>)
    requires Rep(h, ts, p, None) && Unique(ts)
    ensures Between(h, [], ts, p) && [] + ts == ts && Flatten(f, ts) == [] + Flatten(f, ts) && SameOutside(h, h, Ids(ts))
  {
    assert [] + ts == ts;
  }

  lemma {:induction false} FlattenNothing(f: Facts, done: seq<Tree>)
    ensures done + Flatten(f, []) == done
  {
  }

  lemma {:induction false} SameWider(a: Links, b: Links, c: Links, all: set<nat>, s: set<nat>, t: set<nat>)
    requires SameOutside(a, b, all) && SameOutside(b, c, s) && t <= all && s <= t
    ensures SameOutside(a, c, all)
  {
  }

  /** An entry that stays where it is. */
  lemma {:induction false} FlattenAdvance(f: Facts, h: Links, done: seq<Tree>, rest: seq<Tree>, p: Option<nat>)
    requires rest != [] && Between(h, done, rest, p) && !MovesUp(f, rest[0])
    ensures Between(h, done + [rest[0]], rest[1..], p) && (done + [rest[0]]) + rest[1..] == done + rest
    ensures done + Flatten(f, rest) == done + [rest[0]] + Flatten(f, rest[1..])
    ensures h.Has(rest[0].id) && h.next[rest[0].id] == First(rest[1..], None) && Count(rest[1..]) < Count(rest)
  {
    hide Rep, Ids, Unique, Flatten;
    Unfold(h, rest, p, None);
    Advance(h, done, rest, p);
    FlattenCons(f, rest);
    Regroup(done, rest[0], Flatten(f, rest[1..]));
  }

  lemma {:induction false} FlattenCons(f: Facts, ts: seq<Tree>)
    requires ts != [] && !MovesUp(f, ts[0])
    ensures Flatten(f, ts) == [ts[0]] + Flatten(f, ts[1..])
  {
  }

  lemma {:induction false} Regroup(a: seq<Tree>, t: Tree, b: seq<Tree>)
    ensures a + ([t] + b) == a + [t] + b
  {
  }

  /** Moving the children of the first remaining entry up leaves the entries before it alone. */
  lemma {:induction false} FlattenStep(f: Facts, h: Links, k: Links, done: seq<Tree>, rest: seq<Tree>, p: Option<nat>)
    requires rest != [] && MovesUp(f, rest[0]) && Between(h, done, rest, p) && SameOutside(h, k, Ids(rest))
    requires Rep(k, [Node(rest[0].id, [])] + (rest[0].kids + rest[1..]), p, None)
    ensures var rest' := [Node(rest[0].id, [])] + (rest[0].kids + rest[1..]);
            && Between(k, done, rest', p) && Ids(done + rest') == Ids(done + rest) && Ids(rest) <= Ids(done + rest)
            && Flatten(f, rest') == Flatten(f, rest) && Count(rest') == Count(rest)
  {
    hide Rep, Ids, Unique;
    var t := rest[0];
    var moved := t.kids + rest[1..];
    var rest' := [Node(t.id, [])] + moved;
    assert rest == [t] + rest[1..];
    IdsConcat(done, rest);
    UniqueConcat(done, rest);
    Cons(t, rest[1..]);
    IdsConcat(t.kids, rest[1..]);
    UniqueConcat(t.kids, rest[1..]);
    Cons(Node(t.id, []), moved);
    EmptyIds();
    IdsConcat(done, rest');
    UniqueConcat(done, rest');
    RepFrame(h, k, done, p, Some(t.id));
    CountConcat(t.kids, rest[1..]);
    assert rest'[1..] == moved;
  }

  // ---------------------------------------------------------------------------------------------
  // Steps of removing ifs

  lemma {:induction false} SkipIf(f: Facts, h: Links, rest: seq<Tree>, p: Option<nat>)
    requires rest != [] && Rep(h, rest, p, None) && Unique(rest) && f.kind(rest[0].id) == IfItem
    ensures RemoveIfs(f, rest) == RemoveIfs(f, rest[1..]) && Rep(h, rest[1..], p, None) && Unique(rest[1..])
    ensures h.Has(rest[0].id) && h.next[rest[0].id] == First(rest[1..], None) && Ids(rest[1..]) <= Ids(rest)
  {
    hide Rep, Ids, Unique;
    Unfold(h, rest, p, None);
  }

  /** Entry `t` is kept and linked to the next entry that is. */
  lemma {:induction false} KeepStep(f: Facts, h: Links, done: seq<Tree>, rest: seq<Tree>, next: seq<Tree>, p: Option<nat>)
    requires rest != [] && Between(h, done, rest, p) && Rep(h, next, p, None) && Unique(next) && Ids(next) <= Ids(rest[1..])
    requires f.kind(rest[0].id) != IfItem && RemoveIfs(f, rest[1..]) == RemoveIfs(f, next)
    ensures h.Has(rest[0].id)
    ensures var k := h.SetNext(rest[0].id, First(next, None));
            Between(k, done + [rest[0]], next, p) && SameOutside(h, k, Ids(rest))
    ensures Ids(done + [rest[0]] + next) <= Ids(done + rest)
    ensures done + RemoveIfs(f, rest) == done + [rest[0]] + RemoveIfs(f, next)
  {
    hide Rep, Ids, Unique;
    var t := rest[0];
    UniqueConcat(done, rest);
    IdsConcat(done, rest);
    Unfold(h, rest, p, None);
    RepOne(h, t, p, First(rest[1..], None));
    assert [] + [t] == [t];
    SetTail(h, [], t, p, First(rest[1..], None), First(next, None));
    var k := h.SetNext(t.id, First(next, None));
    RepFrame(h, k, done, p, Some(t.id));
    RepFrame(h, k, next, p, None);
    Join(k, done, [t], p, First(next, None));
    IdsConcat(done + [t], next);
    UniqueConcat(done + [t], next);
    Regroup(done, t, RemoveIfs(f, next));
  }

  // ---------------------------------------------------------------------------------------------
  // Steps of building an implicit submenu

  /** `done` already hangs below symbol `n`, but still behind it in its level. */
  ghost predicate Absorbing(h: Links, n: nat, p: Option<nat>, done: seq<Tree>, rest: seq<Tree>) {
    && h.Has(n) && h.parent[n] == p && h.list[n] == None && h.next[n] == First(done + rest, None)
    && Rep(h, done, Some(n), First(rest, None)) && Rep(h, rest, p, None) && Unique(done + rest) && n !in Ids(done + rest)
  }

  /** The last node absorbed, or the symbol itself. */
  function Latest(n: nat, done: seq<Tree>): nat { if done == [] then n else done[|done| - 1].id }

  lemma {:induction false} LatestNext(h: Links, n: nat, p: Option<nat>, done: seq<Tree>, rest: seq<Tree>)
    requires Absorbing(h, n, p, done, rest)
    ensures h.Has(Latest(n, done)) && h.next[Latest(n, done)] == First(rest, None)
    ensures Latest(n, done) !in Ids(rest) && (Latest(n, done) == n <==> done == [])
  {
    hide Rep, Ids, Unique;
    IdsConcat(done, rest);
    UniqueConcat(done, rest);
    if done == [] {
      assert done + rest == rest;
    } else {
      var init, last := done[..|done| - 1], done[|done| - 1];
      assert done == init + [last];
      Join(h, init, [last], Some(n), First(rest, None));
      RepOne(h, last, Some(n), First(rest, None));
      IdsConcat(init, [last]);
    }
  }

  lemma {:induction false} LatestIs(n: nat, done: seq<Tree>, t: Tree)
    ensures Latest(n, done + [t]) == t.id
  {
  }

  lemma {:induction false} SameThere(h: Links, k: Links, s: set<nat>, n: nat)
    requires SameOutside(h, k, s) && n !in s
    ensures SameAt(h, k, n)
  {
  }

  lemma {:induction false} AbsorbParts(h: Links, n: nat, p: Option<nat>, done: seq<Tree>, rest: seq<Tree>)
    requires Absorbing(h, n, p, done, rest)
    ensures h.Has(n) && Unique(rest) && Rep(h, rest, p, None) && Ids(done + rest) == Ids(done) + Ids(rest)
  {
    hide Rep, Ids, Unique;
    IdsConcat(done, rest);
    UniqueConcat(done, rest);
  }

  lemma {:induction false} AbsorbStep(h: Links, k: Links, n: nat, p: Option<nat>, done: seq<Tree>, rest: seq<Tree>, first: Tree, more: seq<Tree>)
    requires Absorbing(h, n, p, done, rest) && rest != [] && first.id == rest[0].id
    requires Rep(k, [first] + more, p, None) && SameOutside(h, k, Ids(rest)) && Within([first] + more, rest)
    ensures k.Has(first.id) && Absorbing(k.SetParent(first.id, Some(n)), n, p, done + [first], more)
    ensures SameOutside(k, k.SetParent(first.id, Some(n)), Ids(rest))
    ensures Ids(done + [first] + more) <= Ids(done + rest)
  {
    hide Rep, Ids, Unique;
    var added := [first] + more;
    IdsConcat(done, rest);
    UniqueConcat(done, rest);
    Join(k, [first], more, p, None);
    RepOne(k, first, p, First(more, None));
    SetParentOne(k, first, p, First(more, None), Some(n));
    var k2 := k.SetParent(first.id, Some(n));
    RepFrame(h, k, done, Some(n), Some(first.id));
    RepFrame(k, k2, done, Some(n), Some(first.id));
    RepFrame(k, k2, more, p, None);
    Join(k2, done, [first], Some(n), First(more, None));
    IdsConcat(done + [first], more);
    UniqueConcat(done + [first], more);
    assert SameAt(h, k, n) && SameAt(k, k2, n);
    assert First(done + rest, None) == First(done + [first] + more, None);
  }

  lemma {:induction false} AbsorbEnd(h: Links, n: nat, p: Option<nat>, done: seq<Tree>, rest: seq<Tree>)
    requires Absorbing(h, n, p, done, rest) && done != []
    ensures h.Has(Latest(n, done))
    ensures var last := Latest(n, done);
            var k := h.SetList(n, h.next[n]).SetNext(n, h.next[last]).SetNext(last, None);
            Rep(k, [Node(n, done)] + rest, p, None) && SameOutside(h, k, {n} + Ids(done))
  {
    hide Rep, Ids, Unique;
    LatestNext(h, n, p, done, rest);
    var init, last := done[..|done| - 1], done[|done| - 1];
    assert done == init + [last];
    IdsConcat(done, rest);
    UniqueConcat(done, rest);
    IdsConcat(init, [last]);
    RepOne(h, last, Some(n), First(rest, None));
    assert last.id in Ids(done);
    SetTail(h, init, last, Some(n), First(rest, None), None);
    var k1 := h.SetNext(last.id, None);
    var k := h.SetList(n, h.next[n]).SetNext(n, h.next[last.id]).SetNext(last.id, None);
    RepFrame(k1, k, done, Some(n), None);
    RepFrame(h, k, rest, p, None);
    assert k.list[n] == First(done, None);
    RepOne(k, Node(n, done), p, First(rest, None));
    Join(k, [Node(n, done)], rest, p, None);
  }

  /** A level whose first node has its children replaced. */
  lemma {:induction false} Reparent(h: Links, k: Links, n: nat, kids: seq<Tree>, kids': seq<Tree>, rest: seq<Tree>, p: Option<nat>)
    requires Rep(h, [Node(n, kids)] + rest, p, None) && Unique([Node(n, kids)] + rest)
    requires SameOutside(h, k, {n} + Ids(kids)) && k.Has(n) && k.next[n] == h.next[n] && k.parent[n] == h.parent[n]
    requires k.list[n] == First(kids', None) && Rep(k, kids', Some(n), None)
    ensures Rep(k, [Node(n, kids')] + rest, p, None)
  {
    hide Rep, Ids, Unique;
    var t, t' := Node(n, kids), Node(n, kids');
    Cons(t, rest);
    Join(h, [t], rest, p, None);
    RepOne(h, t, p, First(rest, None));
    RepFrame(h, k, rest, p, None);
    RepOne(k, t', p, First(rest, None));
    Join(k, [t'], rest, p, None);
  }

  lemma {:induction false} NoIfsLeft(f: Facts, done: seq<Tree>)
    ensures done + RemoveIfs(f, []) == done && done + [] == done
  {
  }

  lemma {:induction false} FlattenFirst(f: Facts, ts: seq<Tree>)
    ensures First(Flatten(f, ts), None) == First(ts, None)
  {
  }

  lemma {:induction false} StartAbsorbing(f: Facts, h: Links, ts: seq<Tree>, p: Option<nat>)
    requires ts != [] && ts[0].kids == [] && Unique(ts) && Rep(h, ts, p, None)
    ensures Absorbing(h, ts[0].id, p, [], ts[1..]) && SameOutside(h, h, Ids(ts)) && Count(ts[1..]) < Count(ts)
    ensures [] + ts[1..] == ts[1..]
    ensures var a := Absorb(f, ts[0].id, ts[1..]); a == Absorbed([] + a.kids, a.rest)
  {
    hide Absorb;
    assert [] + ts[1..] == ts[1..];
  }

  lemma {:induction false} AbsorbUnfold(f: Facts, n: nat, done: seq<Tree>, rest: seq<Tree>)
    requires rest != [] && f.auto(n, rest[0].id)
    ensures var a, r := Absorb(f, n, rest), FinalizeHead(f, rest);
            var more := Absorb(f, n, r.rest);
            done + a.kids == done + [r.first] + more.kids && a.rest == more.rest && Count(r.rest) < Count(rest)
  {
    hide FinalizeHead;
    var r := FinalizeHead(f, rest);
    Regroup(done, r.first, Absorb(f, n, r.rest).kids);
  }

  lemma {:induction false} AbsorbDone(f: Facts, n: nat, done: seq<Tree>, rest: seq<Tree>)
    requires rest == [] || !f.auto(n, rest[0].id)
    ensures var a := Absorb(f, n, rest); done + a.kids == done && a.rest == rest
  {
  }

  lemma {:induction false} NothingAbsorbed(h: Links, n: nat, p: Option<nat>, rest: seq<Tree>)
    requires Absorbing(h, n, p, [], rest)
    ensures Rep(h, [Node(n, [])] + rest, p, None)
  {
    hide Rep, Ids, Unique;
    assert [] + rest == rest;
    EmptyRep(h, Some(n), None);
    RepOne(h, Node(n, []), p, First(rest, None));
    Join(h, [Node(n, [])], rest, p, None);
  }

  /** The first remaining child is finalized. */
  lemma {:induction false} KidStep(f: Facts, h: Links, k: Links, done: seq<Tree>, rest: seq<Tree>, p: Option<nat>)
    requires rest != [] && Between(h, done, rest, p) && SameOutside(h, k, Ids(rest))
    requires var r := FinalizeHead(f, rest); Rep(k, [r.first] + r.rest, p, None)
    ensures var r := FinalizeHead(f, rest);
            && Between(k, done + [r.first], r.rest, p) && Ids(done + [r.first] + r.rest) <= Ids(done + rest)
            && k.Has(r.first.id) && k.next[r.first.id] == First(r.rest, None)
            && done + FinalizeAll(f, rest) == done + [r.first] + FinalizeAll(f, r.rest)
  {
    hide Rep, Ids, Unique, FinalizeHead;
    var r := FinalizeHead(f, rest);
    var added := [r.first] + r.rest;
    HeadWithin(f, rest);
    IdsConcat(done, rest);
    UniqueConcat(done, rest);
    RepFrame(h, k, done, p, Some(r.first.id));
    assert added[0] == r.first && added[1..] == r.rest;
    IdsConcat(done, added);
    UniqueConcat(done, added);
    Unfold(k, added, p, None);
    Advance(k, done, added, p);
    Regroup(done, r.first, FinalizeAll(f, r.rest));
  }

  lemma {:induction false} AllNothing(f: Facts, done: seq<Tree>)
    ensures done + FinalizeAll(f, []) == done && done + [] == done
  {
  }

  // ---------------------------------------------------------------------------------------------
  // In place

  class Menu {
    const f: Facts
    var h: Links

    constructor (facts: Facts, links: Links)
      ensures f == facts && h == links
    {
      f, h := facts, links;
    }

    /** Moves the children of entry `n` up to its own parent; returns the last one. */
    method Adopt(n: nat, ghost kids: seq<Tree>) returns (last: nat, ghost init: seq<Tree>, ghost end: Tree)
      requires kids != [] && Unique(kids) && h.Has(n) && n !in Ids(kids)
      requires h.list[n] == First(kids, None) && Rep(h, kids, Some(n), None)
      modifies this
      ensures kids == init + [end] && last == end.id && Rep(h, kids, old(h.parent[n]), None)
      ensures SameOutside(old(h), h, Ids(kids))
    {
      hide Rep, Ids, Unique;
      last := h.list[n].value;
      ghost var p := h.parent[n];
      init, end := [], kids[0];
      ghost var rest := kids;
      assert kids == init + rest;
      EmptyRep(h, p, First(rest, None));
      while true
        invariant kids == init + rest && rest != [] && last == rest[0].id
        invariant Rep(h, init, p, First(rest, None)) && Rep(h, rest, Some(n), None)
        invariant h.Has(n) && h.parent[n] == p && SameOutside(old(h), h, Ids(kids))
        decreases |rest|
      {
        end := rest[0];
        Unfold(h, rest, Some(n), None);
        AdoptStep(h, init, rest, n, p);
        ghost var before := h;
        h := h.SetParent(last, h.parent[n]);
        SameTrans(old(h), before, h, Ids(kids), Ids(kids));
        assert kids == (init + [end]) + rest[1..];
        if h.next[last].None? {
          assert init + [end] == kids;
          return;
        }
        last := h.next[last].value;
        init, rest := init + [end], rest[1..];
      }
    }

    /** Flattens the level that starts at `start`. */
    method FlattenLevel(start: nat, ghost ts: seq<Tree>, ghost p: Option<nat>)
      requires ts != [] && start == ts[0].id && Unique(ts) && Rep(h, ts, p, None)
      modifies this
      ensures Rep(h, Flatten(f, ts), p, None) && SameOutside(old(h), h, Ids(ts))
    {
      hide Rep, Ids, Unique, Flatten, SameOutside;
      var node := Some(start);
      ghost var done, rest := [], ts;
      StartLevel(f, h, ts, p);
      while node.Some?
        invariant node == First(rest, None) && Between(h, done, rest, p) && Ids(done + rest) <= Ids(ts)
        invariant Flatten(f, ts) == done + Flatten(f, rest) && SameOutside(old(h), h, Ids(ts))
        decreases Count(rest)
      {
        var n := node.value;
        ghost var t := rest[0];
        Unfold(h, rest, p, None);
        if h.list[n].Some? && !f.prompt(n) && f.kind(n) != ChoiceItem {
          ghost var before := h;
          assert rest == [t] + rest[1..];
          UniqueConcat(done, rest);
          MoveUp(n, t, rest[1..], p);
          FlattenStep(f, before, h, done, rest, p);
          SameWider(old(h), before, h, Ids(ts), Ids(rest), Ids(done + rest));
          rest := [Node(n, [])] + (t.kids + rest[1..]);
        }
        ghost var rest0 := rest;
        FlattenAdvance(f, h, done, rest, p);
        node := h.next[n];
        done, rest := done + [rest0[0]], rest0[1..];
      }
      assert done + Flatten(f, []) == done by { FlattenNothing(f, done); }
    }

    /** Places the children of entry `n` behind it. */
    method MoveUp(n: nat, ghost t: Tree, ghost rest: seq<Tree>, ghost p: Option<nat>)
      requires t.kids != [] && n == t.id && Unique([t] + rest) && Rep(h, [t] + rest, p, None)
      modifies this
      ensures Rep(h, [Node(n, [])] + (t.kids + rest), p, None) && SameOutside(old(h), h, Ids([t] + rest))
    {
      hide Rep, Ids, Unique;
      assert ([t] + rest)[1..] == rest;
      Unfold(h, [t] + rest, p, None);
      var last, init, end := Adopt(n, t.kids);
      RepFrame(old(h), h, rest, p, None);
      SpliceUp(h, t, init, end, rest, p);
      ghost var before := h;
      h := h.SetNext(last, h.next[n]);
      h := h.SetNext(n, h.list[n]);
      h := h.SetList(n, None);
      SameTrans(old(h), before, h, Ids(t.kids), Ids([t] + rest));
      assert Ids(t.kids) + Ids([t] + rest) == Ids([t] + rest);
    }

    /** Unlinks the ifs among the children of `n`, which have no children themselves. */
    method RemoveIfEntries(n: nat, ghost ts: seq<Tree>)
      requires h.Has(n) && n !in Ids(ts) && Unique(ts) && h.list[n] == First(ts, None) && Rep(h, ts, Some(n), None)
      modifies this
      ensures h.Has(n) && h.list[n] == First(RemoveIfs(f, ts), None) && Rep(h, RemoveIfs(f, ts), Some(n), None)
      ensures h.next[n] == old(h.next[n]) && h.parent[n] == old(h.parent[n]) && SameOutside(old(h), h, {n} + Ids(ts))
    {
      hide Rep, Ids, Unique, RemoveIfs;
      var cur := h.list[n];
      ghost var rest, p := ts, Some(n);
      while cur.Some? && f.kind(cur.value) == IfItem
        invariant h == old(h) && cur == First(rest, None) && Rep(h, rest, p, None) && Unique(rest)
        invariant Ids(rest) <= Ids(ts) && RemoveIfs(f, rest) == RemoveIfs(f, ts)
        decreases |rest|
      {
        SkipIf(f, h, rest, p);
        cur := h.next[cur.value];
        rest := rest[1..];
      }
      h := h.SetList(n, cur);
      RepFrame(old(h), h, rest, p, None);
      ghost var done: seq<Tree> := [];
      StartLevel(f, h, rest, p);
      assert [] + RemoveIfs(f, rest) == RemoveIfs(f, rest);
      while cur.Some?
        invariant cur == First(rest, None) && (rest != [] ==> f.kind(rest[0].id) != IfItem)
        invariant Between(h, done, rest, p) && Ids(done + rest) <= Ids(ts)
        invariant done + RemoveIfs(f, rest) == RemoveIfs(f, ts)
        invariant h.Has(n) && h.list[n] == First(done + rest, None)
        invariant h.next[n] == old(h.next[n]) && h.parent[n] == old(h.parent[n]) && SameOutside(old(h), h, {n} + Ids(ts))
        decreases |rest|
      {
        Unfold(h, rest, p, None);
        UniqueConcat(done, rest);
        IdsConcat(done, rest);
        var next := h.next[cur.value];
        ghost var after, before := rest[1..], h;
        while next.Some? && f.kind(next.value) == IfItem
          invariant h == before && next == First(after, None) && Rep(h, after, p, None) && Unique(after)
          invariant Ids(after) <= Ids(rest[1..]) && RemoveIfs(f, after) == RemoveIfs(f, rest[1..]) && |after| < |rest|
          decreases |after|
        {
          SkipIf(f, h, after, p);
          next := h.next[next.value];
          after := after[1..];
        }
        KeepStep(f, h, done, rest, after, p);
        h := h.SetNext(cur.value, next);
        cur := next;
        done, rest := done + [rest[0]], after;
      }
      NoIfsLeft(f, done);
    }

    /** Flattens the children of `n` and removes the ifs among them. */
    method FinishLevel(n: nat, ghost kids: seq<Tree>, ghost rest: seq<Tree>, ghost p: Option<nat>)
      requires kids != [] && Unique([Node(n, kids)] + rest) && Rep(h, [Node(n, kids)] + rest, p, None)
      modifies this
      ensures Rep(h, [Node(n, Level(f, kids))] + rest, p, None) && SameOutside(old(h), h, {n} + Ids(kids))
    {
      hide Rep, Ids, Unique, Flatten, RemoveIfs;
      ghost var t := Node(n, kids);
      assert ([t] + rest)[1..] == rest;
      Unfold(h, [t] + rest, p, None);
      FlattenLevel(h.list[n].value, kids, Some(n));
      FlattenWithin(f, kids);
      assert SameAt(old(h), h, n);
      FlattenFirst(f, kids);
      RemoveIfEntries(n, Flatten(f, kids));
      Reparent(old(h), h, n, kids, Level(f, kids), rest, p);
    }

    /** Builds the implicit submenu of symbol `n` from the entries behind it. */
    method AbsorbEntries(n: nat, ghost ts: seq<Tree>, ghost p: Option<nat>)
      requires ts != [] && n == ts[0].id && ts[0].kids == [] && Unique(ts) && Rep(h, ts, p, None) && Parsed(f, ts[1..])
      modifies this
      ensures var a := Absorb(f, n, ts[1..]); Rep(h, [Node(n, a.kids)] + a.rest, p, None)
      ensures SameOutside(old(h), h, Ids(ts))
      decreases Count(ts), 0
    {
      hide Rep, Ids, Unique, Absorb, FinalizeHead, Parsed, SameOutside, Absorbing;
      ghost var done, rest := [], ts[1..];
      Unfold(h, ts, p, None);
      StartAbsorbing(f, h, ts, p);
      var cur := n;
      while h.next[cur].Some? && f.auto(n, h.next[cur].value)
        invariant Absorbing(h, n, p, done, rest) && cur == Latest(n, done) && h.Has(cur) && h.next[cur] == First(rest, None)
        invariant Parsed(f, rest) && Ids(done + rest) <= Ids(ts[1..]) && Count(rest) < Count(ts)
        invariant Absorb(f, n, ts[1..]) == Absorbed(done + Absorb(f, n, rest).kids, Absorb(f, n, rest).rest)
        invariant SameOutside(old(h), h, Ids(ts))
        decreases Count(rest)
      {
        ghost var before, r := h, FinalizeHead(f, rest);
        LatestNext(h, n, p, done, rest);
        AbsorbParts(h, n, p, done, rest);
        FinalizeNode(h.next[cur].value, rest, p);
        HeadWithin(f, rest);
        HeadTidy(f, rest);
        AbsorbStep(before, h, n, p, done, rest, r.first, r.rest);
        AbsorbUnfold(f, n, done, rest);
        SameWider(old(h), before, h, Ids(ts), Ids(rest), Ids(done + rest));
        SameThere(before, h, Ids(rest), cur);
        ghost var final := h;
        cur := h.next[cur].value;
        h := h.SetParent(cur, Some(n));
        SameWider(old(h), final, h, Ids(ts), Ids(rest), Ids(done + rest));
        LatestIs(n, done, r.first);
        done, rest := done + [r.first], r.rest;
        LatestNext(h, n, p, done, rest);
      }
      LatestNext(h, n, p, done, rest);
      AbsorbDone(f, n, done, rest);
      if cur != n {
        ghost var before := h;
        AbsorbEnd(h, n, p, done, rest);
        AbsorbParts(h, n, p, done, rest);
        h := h.SetList(n, h.next[n]);
        h := h.SetNext(n, h.next[cur]);
        h := h.SetNext(cur, None);
        SameWider(old(h), before, h, Ids(ts), {n} + Ids(done), {n} + Ids(done));
      } else {
        NothingAbsorbed(h, n, p, rest);
      }
    }

    /** Finalizes the children of `n` one after another. */
    method FinalizeKids(n: nat, ghost kids: seq<Tree>, ghost rest: seq<Tree>, ghost p: Option<nat>)
      requires kids != [] && Unique([Node(n, kids)] + rest) && Rep(h, [Node(n, kids)] + rest, p, None) && Parsed(f, kids)
      modifies this
      ensures Rep(h, [Node(n, FinalizeAll(f, kids))] + rest, p, None) && SameOutside(old(h), h, {n} + Ids(kids))
      decreases Count(kids), 2
    {
      hide Rep, Ids, Unique, FinalizeHead, FinalizeAll, Parsed;
      assert ([Node(n, kids)] + rest)[1..] == rest;
      Unfold(h, [Node(n, kids)] + rest, p, None);
      ghost var done, left := [], kids;
      StartLevel(f, h, kids, Some(n));
      assert [] + FinalizeAll(f, kids) == FinalizeAll(f, kids);
      var cur := h.list[n];
      while cur.Some?
        invariant cur == First(left, None) && Between(h, done, left, Some(n)) && Ids(done + left) <= Ids(kids)
        invariant done + FinalizeAll(f, left) == FinalizeAll(f, kids) && Parsed(f, left) && Count(left) <= Count(kids)
        invariant First(done + left, None) == First(kids, None) && SameOutside(old(h), h, Ids(kids))
        decreases Count(left)
      {
        ghost var before, r := h, FinalizeHead(f, left);
        UniqueConcat(done, left);
        IdsConcat(done, left);
        FinalizeNode(cur.value, left, Some(n));
        KidStep(f, before, h, done, left, Some(n));
        HeadTidy(f, left);
        SameWider(old(h), before, h, Ids(kids), Ids(left), Ids(done + left));
        cur := h.next[cur.value];
        done, left := done + [r.first], r.rest;
      }
      AllNothing(f, done);
      assert SameAt(old(h), h, n);
      Reparent(old(h), h, n, kids, done, rest, p);
    }

    /** Finalizes entry `n`, which is followed by `ts[1..]` in its level. */
    method FinalizeNode(n: nat, ghost ts: seq<Tree>, ghost p: Option<nat>)
      requires ts != [] && n == ts[0].id && Unique(ts) && Rep(h, ts, p, None) && Parsed(f, ts)
      modifies this
      ensures var r := FinalizeHead(f, ts); Rep(h, [r.first] + r.rest, p, None)
      ensures SameOutside(old(h), h, Ids(ts))
      decreases Count(ts), 1
    {
      hide Rep, Ids, Unique, Absorb, FinalizeAll, Level;
      ghost var t := ts[0];
      ghost var kids, rest := t.kids, ts[1..];
      assert ts == [Node(n, kids)] + rest;
      Unfold(h, ts, p, None);
      if f.kind(n) == SymbolItem {
        AbsorbEntries(n, ts, p);
        AbsorbWithin(f, n, ts[1..]);
        ghost var a := Absorb(f, n, ts[1..]);
        kids, rest := a.kids, a.rest;
        IdsConcat(kids, rest);
        UniqueConcat(kids, rest);
      } else if h.list[n].Some? {
        FinalizeKids(n, kids, rest, p);
        AllWithin(f, kids);
        kids := FinalizeAll(f, kids);
      }
      Cons(Node(n, kids), rest);
      assert ([Node(n, kids)] + rest)[1..] == rest;
      Unfold(h, [Node(n, kids)] + rest, p, None);
      ghost var before := h;
      if h.list[n].Some? {
        FinishLevel(n, kids, rest, p);
        SameWider(old(h), before, h, Ids(ts), {n} + Ids(kids), {n} + Ids(kids));
      } else {
        EmptyLevel(f);
      }
    }
  }

  lemma {:induction false} EmptyLevel(f: Facts)
    ensures Level(f, []) == [] && FinalizeAll(f, []) == []
  {
  }
}
