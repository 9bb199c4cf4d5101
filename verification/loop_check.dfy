/**
  The dependency-loop check: a depth-first search over the dependents of every symbol that marks
  symbols as unvisited, on the way, or done. It reports a loop exactly when there is one, and when it
  reports none, the order in which symbols were done stratifies the configuration.
  */
module LoopCheck {
  import opened Basics

  /** `deps[s]` are the symbols that immediately depend on `s`. */
  type Graph = seq<set<nat>>

  predicate Closed(g: Graph) { forall s, d :: 0 <= s < |g| && d in g[s] ==> d < |g| }

  predicate Edge(g: Graph, a: nat, b: nat) { a < |g| && b in g[a] }

  /** Each entry depends on the next one, and the last one on the first: the loop as it is reported. */
  predicate Loop(g: Graph, loop: seq<nat>) {
    && loop != [] && (forall k :: 0 < k < |loop| ==> Edge(g, loop[k], loop[k - 1]))
    && Edge(g, loop[0], loop[|loop| - 1])
  }

  predicate Distinct(s: seq<nat>) { forall a, b :: 0 <= a < b < |s| ==> s[a] != s[b] }

  /** Every symbol comes after all symbols that depend on it. */
  ghost predicate Finished(g: Graph, order: seq<nat>) {
    && Distinct(order)
    && forall k, d :: 0 <= k < |order| && Edge(g, order[k], d) ==> d in order[..k]
  }

  // ---------------------------------------------------------------------------------------------
  // The search

  /** Nothing found; part of a loop, on the way back to its first symbol; or a whole loop, reported. */
  datatype Outcome = Clear | Returning(loop: seq<nat>) | Reported(loop: seq<nat>)

  function FoundDepLoop(loop: seq<nat>, cur: nat): Outcome
    requires loop != []
  {
    if cur != loop[0] then Returning(loop + [cur]) else Reported(loop)
  }

  /** A path from `loop[0]`, a symbol on the way, back down to `s`. */
  ghost predicate ReturnsTo(g: Graph, loop: seq<nat>, path: seq<nat>, s: nat) {
    && loop != [] && loop[0] in path && loop[|loop| - 1] == s
    && (forall k :: 0 < k < |loop| ==> Edge(g, loop[k], loop[k - 1]) && loop[k] !in path)
    && Distinct(loop)
  }

  /** 1 marks the symbols of `path`, 2 the finished ones, 0 all others. */
  ghost predicate Marks(visited: seq<nat>, path: seq<nat>, done: seq<nat>) {
    && (forall s :: s in path ==> s < |visited|) && (forall s :: s in done ==> s < |visited|)
    && forall s :: 0 <= s < |visited| ==>
         (visited[s] == 1 <==> s in path) && (visited[s] == 2 <==> s in done) && visited[s] <= 2
  }

  lemma {:induction false} MarkDone(g: Graph, visited: seq<nat>, path: seq<nat>, done: seq<nat>, s: nat)
    requires Marks(visited, path + [s], done) && s < |visited| && s !in path
    requires Finished(g, done) && s < |g| && forall d :: d in g[s] ==> d in done
    ensures Marks(visited[s := 2], path, done + [s]) && Finished(g, done + [s])
  {
    var order := done + [s];
    assert s in path + [s] && forall t :: t in path ==> t in path + [s];
    assert forall t :: t in order <==> t in done || t == s;
    forall k, d | 0 <= k < |order| && Edge(g, order[k], d) ensures d in order[..k] {
      if k < |done| {
        assert d in done[..k] && order[..k] == done[..k];
      } else {
        assert order[..k] == done;
      }
    }
  }

  class Search {
    const dependents: Graph
    var visited: seq<nat>
    ghost var done: seq<nat>

    /** The symbols on the way are those of `path`; the finished ones are in order. */
    ghost predicate Valid(path: seq<nat>)
      reads this
    {
      Closed(dependents) && |visited| == |dependents| && Marks(visited, path, done) && Finished(dependents, done)
    }

    constructor (g: Graph)
      requires Closed(g)
      ensures Valid([]) && dependents == g && done == []
    {
      dependents := g;
      visited := seq(|g|, _ => 0);
      done := [];
    }

    ghost function Unvisited(): set<nat>
      reads this
    {
      set s | 0 <= s < |visited| && visited[s] == 0
    }

    method CheckSym(s: nat, ghost path: seq<nat>) returns (r: Outcome)
      requires Valid(path) && s < |dependents|
      modifies this
      ensures Closed(dependents) && |visited| == |dependents|
      ensures r.Clear? ==> Valid(path) && s in done && old(done) <= done && Unvisited() <= old(Unvisited())
      ensures r.Returning? ==> ReturnsTo(dependents, r.loop, path, s)
      ensures r.Reported? ==> Loop(dependents, r.loop) && Distinct(r.loop)
      decreases Unvisited()
    {
      hide Finished, Loop;
      if visited[s] == 0 {
        ghost var here := path + [s];
        visited := visited[s := 1];
        assert Marks(visited, here, done);
        assert old(Unvisited()) == Unvisited() + {s};
        var todo := dependents[s];
        while todo != {}
          invariant Valid(here) && old(done) <= done && Unvisited() < old(Unvisited())
          invariant todo <= dependents[s] && forall d :: d in dependents[s] && d !in todo ==> d in done
          decreases todo
        {
          var dep :| dep in todo;
          r := CheckSym(dep, here);
          if r.Returning? {
            ReturnStep(dependents, r.loop, path, s, dep);
            return FoundDepLoop(r.loop, s);
          }
          if r.Reported? { return; }
          todo := todo - {dep};
        }
        MarkDone(dependents, visited, path, done, s);
        visited := visited[s := 2];
        done := done + [s];
        return Clear;
      }
      if visited[s] == 2 { return Clear; }
      return Returning([s]);
    }
  }

  lemma {:induction false} ReturnStep(g: Graph, loop: seq<nat>, path: seq<nat>, s: nat, dep: nat)
    requires s < |g| && dep in g[s] && s !in path && ReturnsTo(g, loop, path + [s], dep)
    ensures loop[0] != s ==> ReturnsTo(g, loop + [s], path, s)
    ensures loop[0] == s ==> Loop(g, loop) && Distinct(loop)
  {
  }

  function Position(order: seq<nat>, s: nat): (k: nat)
    requires s in order
    ensures k < |order| && order[k] == s
  {
    if order[0] == s then 0 else 1 + Position(order[1..], s)
  }

  lemma {:induction false} EdgeFinished(g: Graph, order: seq<nat>, a: nat, b: nat)
    requires Finished(g, order) && Edge(g, a, b) && a in order
    ensures b in order && Position(order, b) < Position(order, a)
  {
    var k := Position(order, a);
    assert b in order[..k];
    var j :| 0 <= j < k && order[..k][j] == b;
    assert order[j] == b && b in order;
    assert order[Position(order, b)] == b;
  }

  lemma {:induction false} LoopClimbs(g: Graph, order: seq<nat>, l: seq<nat>, k: nat)
    requires Finished(g, order) && Loop(g, l) && k < |l| && forall s :: s in l ==> s in order
    ensures Position(order, l[0]) <= Position(order, l[k])
  {
    if k > 0 {
      LoopClimbs(g, order, l, k - 1);
      assert Edge(g, l[k], l[k - 1]) && l[k] in l;
      EdgeFinished(g, order, l[k], l[k - 1]);
    }
  }

  lemma {:induction false} NoLoop(g: Graph, order: seq<nat>, l: seq<nat>)
    requires Finished(g, order) && forall s :: 0 <= s < |g| ==> s in order
    ensures !Loop(g, l)
  {
    if Loop(g, l) {
      forall s | s in l ensures s in order {
        var k :| 0 <= k < |l| && l[k] == s;
        assert if k == 0 then Edge(g, s, l[|l| - 1]) else Edge(g, s, l[k - 1]);
      }
      var first, last := l[0], l[|l| - 1];
      assert first in order;
      EdgeFinished(g, order, first, last);
      LoopClimbs(g, order, l, |l| - 1);
    }
  }

  /** The check over all symbols: no loop is reported exactly when there is none. */
  method CheckDepLoops(g: Graph) returns (loop: Option<seq<nat>>, ghost order: seq<nat>)
    requires Closed(g)
    ensures loop.Some? ==> Loop(g, loop.value) && Distinct(loop.value)
    ensures loop.None? ==> Finished(g, order) && forall s :: 0 <= s < |g| ==> s in order
    ensures loop.None? <==> !exists l :: Loop(g, l)
  {
    var c := new Search(g);
    for s := 0 to |g|
      invariant c.Valid([]) && c.dependents == g
      invariant forall t :: 0 <= t < s ==> t in c.done
    {
      var r := c.CheckSym(s, []);
      if r.Reported? { return Some(r.loop), []; }
    }
    order := c.done;
    forall l ensures !Loop(g, l) {
      NoLoop(g, order, l);
    }
    return None, order;
  }
}
