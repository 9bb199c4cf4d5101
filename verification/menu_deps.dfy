/**
  Propagating dependencies down the menu tree. Afterwards the condition of a prompt or property has
  the value that its own condition, its entry's dependencies, and everything around the entry give.
  */
module MenuDeps {
  import opened Basics
  import opened KconfigModel
  import opened MenuTree
  import opened MenuLinks

  /** The constants y and n. */
  datatype Consts = Consts(y: nat, n: nat)

  function MakeAnd(c: Consts, a: Expr, b: Expr): Expr {
    if a == Ref(c.y) then b
    else if b == Ref(c.y) then a
    else if a == Ref(c.n) || b == Ref(c.n) then Ref(c.n)
    else And(a, b)
  }

  function MakeOr(c: Consts, a: Expr, b: Expr): Expr {
    if a == Ref(c.n) then b
    else if b == Ref(c.n) then a
    else if a == Ref(c.y) || b == Ref(c.y) then Ref(c.y)
    else Or(a, b)
  }

  /** y and n have their values. */
  predicate Sane(c: Consts, env: Env) { ValAt(env, c.y).tri == 2 && ValAt(env, c.n).tri == 0 }

  lemma {:induction false} MakeAndValue(c: Consts, cfg: Config, env: Env, a: Expr, b: Expr)
    requires Sane(c, env)
    ensures ExprValue(cfg, env, MakeAnd(c, a, b)) == Min(ExprValue(cfg, env, a), ExprValue(cfg, env, b))
  {
  }

  lemma {:induction false} MakeOrValue(c: Consts, cfg: Config, env: Env, a: Expr, b: Expr)
    requires Sane(c, env)
    ensures ExprValue(cfg, env, MakeOr(c, a, b)) == Max(ExprValue(cfg, env, a), ExprValue(cfg, env, b))
  {
  }

  // ---------------------------------------------------------------------------------------------
  // What the conditions should be

  /** The dependencies of every node, the condition of its prompt, and the conditions of its properties. */
  datatype Props = Props(dep: seq<Expr>, prompt: seq<Option<Expr>>, conds: seq<seq<Expr>>) {
    predicate Has(n: nat) { n < |dep| && n < |prompt| && n < |conds| }
  }

  /** Kind and item of every node, and the visible-if condition of menus. */
  datatype Entries = Entries(kind: nat -> Kind, item: nat -> nat, visibleIf: nat -> Expr)

  function DepOf(s: Props, n: nat): Expr { if s.Has(n) then s.dep[n] else Ref(0) }

  /** The dependencies around an entry: those of the enclosing nodes, up to a choice, which stands for all above it. */
  function Around(e: Entries, s: Props, path: seq<nat>): seq<Expr> {
    if path == [] then []
    else
      var p := path[|path| - 1];
      if e.kind(p) == ChoiceItem then [Ref(e.item(p))] else [DepOf(s, p)] + Around(e, s, path[..|path| - 1])
  }

  /** The visible-if conditions of all enclosing menus. */
  function VisibleIfs(e: Entries, path: seq<nat>): seq<Expr> {
    if path == [] then []
    else
      var p := path[|path| - 1];
      VisibleIfs(e, path[..|path| - 1]) + if e.kind(p) == MenuItem then [e.visibleIf(p)] else []
  }

  /** The least value of the expressions, y if there are none. */
  function Least(cfg: Config, env: Env, es: seq<Expr>): Tri {
    if es == [] then 2 else Min(ExprValue(cfg, env, es[0]), Least(cfg, env, es[1..]))
  }

  lemma {:induction false} LeastConcat(cfg: Config, env: Env, a: seq<Expr>, b: seq<Expr>)
    ensures Least(cfg, env, a + b) == Min(Least(cfg, env, a), Least(cfg, env, b))
  {
    if a == [] {
      assert a + b == b;
    } else {
      assert (a + b)[1..] == a[1..] + b;
      LeastConcat(cfg, env, a[1..], b);
    }
  }

  /** `x` has the value of all of `es` together, in every environment. */
  ghost predicate Means(c: Consts, cfg: Config, x: Expr, es: seq<Expr>) {
    forall env :: Sane(c, env) ==> ExprValue(cfg, env, x) == Least(cfg, env, es)
  }

  predicate TakesVisibleIf(k: Kind) { k == SymbolItem || k == ChoiceItem }

  /** The conditions of entry `n` below `path`, as they should become. */
  ghost predicate Settled(c: Consts, cfg: Config, e: Entries, was: Props, now: Props, n: nat, path: seq<nat>) {
    && was.Has(n) && now.Has(n)
    && var around := [was.dep[n]] + Around(e, was, path);
    && Means(c, cfg, now.dep[n], around)
    && (was.prompt[n].None? <==> now.prompt[n].None?)
    && (was.prompt[n].Some? ==>
          Means(c, cfg, now.prompt[n].value,
                [was.prompt[n].value] + (if TakesVisibleIf(e.kind(n)) then VisibleIfs(e, path) else []) + around))
    && |now.conds[n]| == |was.conds[n]|
    && forall k :: 0 <= k < |was.conds[n]| ==>
         (if TakesVisibleIf(e.kind(n)) then Means(c, cfg, now.conds[n][k], [was.conds[n][k]] + around)
          else now.conds[n][k] == was.conds[n][k])
  }

  /** All entries below `t`, which stands below `path`. */
  ghost predicate BelowSettled(c: Consts, cfg: Config, e: Entries, was: Props, now: Props, t: Tree, path: seq<nat>)
    decreases t
  {
    forall k :: 0 <= k < |t.kids| ==>
      && Settled(c, cfg, e, was, now, t.kids[k].id, path + [t.id])
      && BelowSettled(c, cfg, e, was, now, t.kids[k], path + [t.id])
  }

  // ---------------------------------------------------------------------------------------------
  // One entry

  function NewPrompt(c: Consts, k: Kind, prompt: Option<Expr>, visibleIf: Expr, dep: Expr): Option<Expr> {
    if prompt.None? then None
    else if TakesVisibleIf(k) then Some(MakeAnd(c, prompt.value, MakeAnd(c, visibleIf, dep)))
    else Some(MakeAnd(c, prompt.value, dep))
  }

  function NewConds(c: Consts, k: Kind, conds: seq<Expr>, dep: Expr): (r: seq<Expr>)
    ensures |r| == |conds|
    ensures forall i :: 0 <= i < |r| ==> r[i] == if TakesVisibleIf(k) then MakeAnd(c, conds[i], dep) else conds[i]
  {
    if TakesVisibleIf(k) then seq(|conds|, i requires 0 <= i < |conds| => MakeAnd(c, conds[i], dep)) else conds
  }

  /** Entry `n` after the dependencies of its parent were added to it. */
  predicate Updated(c: Consts, e: Entries, was: Props, now: Props, n: nat, base: Expr, visibleIf: Expr) {
    && was.Has(n) && now.Has(n) && now.dep[n] == MakeAnd(c, was.dep[n], base)
    && now.prompt[n] == NewPrompt(c, e.kind(n), was.prompt[n], visibleIf, now.dep[n])
    && now.conds[n] == NewConds(c, e.kind(n), was.conds[n], now.dep[n])
  }

  lemma {:induction false} MeansAnd(c: Consts, cfg: Config, x: Expr, a: seq<Expr>, y: Expr, b: seq<Expr>)
    requires Means(c, cfg, x, a) && Means(c, cfg, y, b)
    ensures Means(c, cfg, MakeAnd(c, x, y), a + b)
  {
    forall env | Sane(c, env)
      ensures ExprValue(cfg, env, MakeAnd(c, x, y)) == Least(cfg, env, a + b)
    {
      MakeAndValue(c, cfg, env, x, y);
      LeastConcat(cfg, env, a, b);
    }
  }

  lemma {:induction false} MeansItself(c: Consts, cfg: Config, x: Expr)
    ensures Means(c, cfg, x, [x])
  {
    forall env | Sane(c, env) ensures ExprValue(cfg, env, x) == Least(cfg, env, [x]) {
      assert [x][1..] == [];
    }
  }

  lemma {:induction false} UpdatedSettles(c: Consts, cfg: Config, e: Entries, was: Props, now: Props, n: nat, path: seq<nat>, base: Expr, visibleIf: Expr)
    requires Updated(c, e, was, now, n, base, visibleIf)
    requires Means(c, cfg, base, Around(e, was, path)) && Means(c, cfg, visibleIf, VisibleIfs(e, path))
    ensures Settled(c, cfg, e, was, now, n, path)
  {
    hide Means, MakeAnd, Around, VisibleIfs;
    var around := [was.dep[n]] + Around(e, was, path);
    MeansItself(c, cfg, was.dep[n]);
    MeansAnd(c, cfg, was.dep[n], [was.dep[n]], base, Around(e, was, path));
    if was.prompt[n].Some? {
      var q := was.prompt[n].value;
      MeansItself(c, cfg, q);
      if TakesVisibleIf(e.kind(n)) {
        MeansAnd(c, cfg, visibleIf, VisibleIfs(e, path), now.dep[n], around);
        MeansAnd(c, cfg, q, [q], MakeAnd(c, visibleIf, now.dep[n]), VisibleIfs(e, path) + around);
        assert [q] + (VisibleIfs(e, path) + around) == [q] + VisibleIfs(e, path) + around;
      } else {
        MeansAnd(c, cfg, q, [q], now.dep[n], around);
        assert [q] + [] + around == [q] + around;
      }
    }
    if TakesVisibleIf(e.kind(n)) {
      forall k | 0 <= k < |was.conds[n]| ensures Means(c, cfg, now.conds[n][k], [was.conds[n][k]] + around) {
        MeansItself(c, cfg, was.conds[n][k]);
        MeansAnd(c, cfg, was.conds[n][k], [was.conds[n][k]], now.dep[n], around);
      }
    }
  }

  /** What a node hands down to its children: its dependencies, or itself if it is a choice. */
  function Handed(e: Entries, s: Props, n: nat): Expr { if e.kind(n) == ChoiceItem then Ref(e.item(n)) else DepOf(s, n) }

  /** The visible-if conditions that hold for the children of a node. */
  function VisibleIfBelow(c: Consts, e: Entries, n: nat, visibleIf: Expr): Expr {
    if e.kind(n) == MenuItem then MakeAnd(c, visibleIf, e.visibleIf(n)) else visibleIf
  }

  /** Every entry below `t` has been given what its parent hands down. */
  ghost predicate BelowUpdated(c: Consts, e: Entries, was: Props, now: Props, t: Tree, visibleIf: Expr)
    decreases t
  {
    var vis := VisibleIfBelow(c, e, t.id, visibleIf);
    forall k :: 0 <= k < |t.kids| ==>
      Updated(c, e, was, now, t.kids[k].id, Handed(e, now, t.id), vis) && BelowUpdated(c, e, was, now, t.kids[k], vis)
  }

  /** What a node hands down means what is around its children. */
  lemma {:induction false} InnerMeans(c: Consts, cfg: Config, e: Entries, was: Props, now: Props, visibleIf: Expr, n: nat, path: seq<nat>)
    requires was.Has(n) && now.Has(n) && Means(c, cfg, now.dep[n], [was.dep[n]] + Around(e, was, path))
    requires Means(c, cfg, visibleIf, VisibleIfs(e, path))
    ensures Means(c, cfg, Handed(e, now, n), Around(e, was, path + [n]))
    ensures Means(c, cfg, VisibleIfBelow(c, e, n, visibleIf), VisibleIfs(e, path + [n]))
  {
    hide Means, MakeAnd;
    var inner := path + [n];
    assert inner[..|inner| - 1] == path && inner[|inner| - 1] == n;
    MeansItself(c, cfg, Ref(e.item(n)));
    MeansItself(c, cfg, e.visibleIf(n));
    MeansAnd(c, cfg, visibleIf, VisibleIfs(e, path), e.visibleIf(n), [e.visibleIf(n)]);
    assert VisibleIfs(e, path) + [] == VisibleIfs(e, path);
  }

  /** Once everything is handed down, all conditions mean what they should. */
  lemma {:induction false} UpdatedMeans(c: Consts, cfg: Config, e: Entries, was: Props, now: Props, t: Tree,
                                        visibleIf: Expr, path: seq<nat>)
    requires BelowUpdated(c, e, was, now, t, visibleIf) && was.Has(t.id) && now.Has(t.id)
    requires Means(c, cfg, now.dep[t.id], [was.dep[t.id]] + Around(e, was, path))
    requires Means(c, cfg, visibleIf, VisibleIfs(e, path))
    ensures BelowSettled(c, cfg, e, was, now, t, path)
    decreases t
  {
    hide Means, Around, VisibleIfs, Updated, Handed, VisibleIfBelow;
    var inner, vis := path + [t.id], VisibleIfBelow(c, e, t.id, visibleIf);
    InnerMeans(c, cfg, e, was, now, visibleIf, t.id, path);
    forall k | 0 <= k < |t.kids|
      ensures Settled(c, cfg, e, was, now, t.kids[k].id, inner) && BelowSettled(c, cfg, e, was, now, t.kids[k], inner)
    {
      UpdatedSettles(c, cfg, e, was, now, t.kids[k].id, inner, Handed(e, now, t.id), vis);
      UpdatedMeans(c, cfg, e, was, now, t.kids[k], vis, inner);
    }
  }

  // ---------------------------------------------------------------------------------------------
  // Frames

  predicate SameProps(a: Props, b: Props, n: nat) {
    a.Has(n) ==> b.Has(n) && a.dep[n] == b.dep[n] && a.prompt[n] == b.prompt[n] && a.conds[n] == b.conds[n]
  }

  ghost predicate KeptOn(a: Props, b: Props, ns: set<nat>) { forall n :: n in ns ==> SameProps(a, b, n) }

  ghost predicate SameBut(a: Props, b: Props, ns: set<nat>) { forall n :: n !in ns ==> SameProps(a, b, n) }

  ghost predicate HasAll(s: Props, ns: set<nat>) { forall n :: n in ns ==> s.Has(n) }

  /** The nodes of a level themselves. */
  function Tops(ts: seq<Tree>): set<nat> { set k | 0 <= k < |ts| :: ts[k].id }

  lemma {:induction false} PartOf(ts: seq<Tree>, k: nat)
    requires k < |ts|
    ensures ts[k].id in Ids(ts) && Ids(ts[k].kids) <= Ids(ts)
    ensures Unique(ts) ==> Unique(ts[k].kids) && ts[k].id !in Ids(ts[k].kids)
  {
    if k > 0 { PartOf(ts[1..], k - 1); }
  }

  lemma {:induction false} PartsApart(ts: seq<Tree>, j: nat, k: nat)
    requires Unique(ts) && j < k < |ts|
    ensures ts[j].id != ts[k].id && Ids(ts[j].kids) !! Ids(ts[k].kids)
    ensures ts[j].id !in Ids(ts[k].kids) && ts[k].id !in Ids(ts[j].kids)
  {
    if j == 0 {
      PartOf(ts[1..], k - 1);
      assert ts[k] == ts[1..][k - 1];
    } else {
      PartsApart(ts[1..], j - 1, k - 1);
    }
  }

  lemma {:induction false} BelowFrame(c: Consts, e: Entries, was: Props, a: Props, b: Props, t: Tree, visibleIf: Expr)
    requires BelowUpdated(c, e, was, a, t, visibleIf) && KeptOn(a, b, {t.id} + Ids(t.kids)) && a.Has(t.id)
    ensures BelowUpdated(c, e, was, b, t, visibleIf)
    decreases t
  {
    hide Ids, MakeAnd, NewPrompt, NewConds, VisibleIfBelow;
    assert SameProps(a, b, t.id);
    var vis := VisibleIfBelow(c, e, t.id, visibleIf);
    forall k | 0 <= k < |t.kids|
      ensures Updated(c, e, was, b, t.kids[k].id, Handed(e, b, t.id), vis) && BelowUpdated(c, e, was, b, t.kids[k], vis)
    {
      PartOf(t.kids, k);
      assert SameProps(a, b, t.kids[k].id);
      BelowFrame(c, e, was, a, b, t.kids[k], vis);
    }
  }

  // ---------------------------------------------------------------------------------------------
  // In place

  class Propagation {
    const c: Consts
    const e: Entries
    var s: Props

    constructor (consts: Consts, entries: Entries, props: Props)
      ensures c == consts && e == entries && s == props
    {
      c, e, s := consts, entries, props;
    }

    /** Adds the dependencies of `n` to its children. */
    method PropagateDeps(n: nat, kids: seq<Tree>, visibleIf: Expr)
      requires s.Has(n) && Unique(kids) && n !in Tops(kids) && forall k :: 0 <= k < |kids| ==> s.Has(kids[k].id)
      modifies this
      ensures SameBut(old(s), s, Tops(kids))
      ensures var base := if e.kind(n) == ChoiceItem then Ref(e.item(n)) else old(s).dep[n];
              forall k :: 0 <= k < |kids| ==> Updated(c, e, old(s), s, kids[k].id, base, visibleIf)
    {
      hide MakeAnd, NewPrompt, Ids, Unique;
      var base := if e.kind(n) == ChoiceItem then Ref(e.item(n)) else s.dep[n];
      for i := 0 to |kids|
        invariant SameBut(old(s), s, Tops(kids))
        invariant forall k :: 0 <= k < i ==> Updated(c, e, old(s), s, kids[k].id, base, visibleIf)
        invariant forall k :: i <= k < |kids| ==> SameProps(old(s), s, kids[k].id)
      {
        var cur := kids[i].id;
        assert s.Has(cur) && SameProps(old(s), s, cur);
        forall k | 0 <= k < |kids| && k != i ensures kids[k].id != cur {
          if k < i { PartsApart(kids, k, i); } else { PartsApart(kids, i, k); }
        }
        var dep := MakeAnd(c, s.dep[cur], base);
        s := Props(s.dep[cur := dep],
                   s.prompt[cur := NewPrompt(c, e.kind(cur), s.prompt[cur], visibleIf, dep)],
                   s.conds[cur := NewConds(c, e.kind(cur), s.conds[cur], dep)]);
      }
    }

    /** Propagates from `t` to everything below it. */
    method Propagate(t: Tree, visibleIf: Expr, ghost was: Props)
      requires Unique([t]) && s.Has(t.id) && HasAll(was, Ids(t.kids)) && KeptOn(was, s, Ids(t.kids))
      modifies this
      ensures BelowUpdated(c, e, was, s, t, visibleIf) && SameBut(old(s), s, Ids(t.kids))
      decreases t
    {
      hide Ids, Unique, Updated, MakeAnd;
      var vis := if e.kind(t.id) == MenuItem then MakeAnd(c, visibleIf, e.visibleIf(t.id)) else visibleIf;
      OneUnique(t);
      TopsIn(t.kids);
      forall k | 0 <= k < |t.kids| ensures s.Has(t.kids[k].id) { PartOf(t.kids, k); }
      ghost var before, base := s, Handed(e, s, t.id);
      PropagateDeps(t.id, t.kids, vis);
      KidsUpdated(c, e, was, before, s, t.kids, base, vis);
      for i := 0 to |t.kids|
        invariant SameBut(old(s), s, Ids(t.kids)) && Partly(c, e, was, s, t.kids, i, base, vis)
      {
        ghost var mid := s;
        KidReady(c, e, was, s, t.kids, i, base, vis);
        Propagate(t.kids[i], vis, was);
        KidDone(c, e, was, mid, s, t.kids, i, base, vis);
        PartOf(t.kids, i);
      }
      assert SameProps(old(s), s, t.id);
    }
  }

  lemma {:induction false} KidsUpdated(c: Consts, e: Entries, was: Props, a: Props, b: Props, ts: seq<Tree>, base: Expr, vis: Expr)
    requires Unique(ts) && KeptOn(was, a, Ids(ts)) && HasAll(was, Ids(ts)) && SameBut(a, b, Tops(ts))
    requires forall k :: 0 <= k < |ts| ==> Updated(c, e, a, b, ts[k].id, base, vis)
    ensures Partly(c, e, was, b, ts, 0, base, vis)
  {
    hide Ids, Unique, MakeAnd, NewPrompt;
    forall k | 0 <= k < |ts| ensures Updated(c, e, was, b, ts[k].id, base, vis) && KeptOn(was, b, Ids(ts[k].kids)) {
      PartOf(ts, k);
      assert SameProps(was, a, ts[k].id);
      forall n | n in Ids(ts[k].kids) ensures SameProps(was, b, n) {
        NotTop(ts, k, n);
        assert SameProps(was, a, n) && SameProps(a, b, n) && was.Has(n);
      }
    }
  }

  lemma {:induction false} NotTop(ts: seq<Tree>, k: nat, n: nat)
    requires Unique(ts) && k < |ts| && n in Ids(ts[k].kids)
    ensures n !in Tops(ts)
  {
    forall j | 0 <= j < |ts| ensures ts[j].id != n {
      PartOf(ts, k);
      if j < k { PartsApart(ts, j, k); } else if k < j { PartsApart(ts, k, j); }
    }
  }

  /** The children have their dependencies, and the first `i` of them have passed them on. */
  ghost predicate Partly(c: Consts, e: Entries, was: Props, s: Props, ts: seq<Tree>, i: nat, base: Expr, vis: Expr) {
    && (forall k :: 0 <= k < |ts| ==> Updated(c, e, was, s, ts[k].id, base, vis))
    && (forall k :: 0 <= k < |ts| && k < i ==> BelowUpdated(c, e, was, s, ts[k], vis))
    && (forall k :: i <= k < |ts| ==> KeptOn(was, s, Ids(ts[k].kids)))
  }

  lemma {:induction false} KidReady(c: Consts, e: Entries, was: Props, s: Props, ts: seq<Tree>, i: nat, base: Expr, vis: Expr)
    requires Partly(c, e, was, s, ts, i, base, vis) && i < |ts| && Unique(ts) && HasAll(was, Ids(ts))
    ensures Unique([ts[i]]) && s.Has(ts[i].id) && HasAll(was, Ids(ts[i].kids)) && KeptOn(was, s, Ids(ts[i].kids))
  {
    PartOf(ts, i);
    assert Updated(c, e, was, s, ts[i].id, base, vis);
    assert [ts[i]][1..] == [];
  }

  lemma {:induction false} KidDone(c: Consts, e: Entries, was: Props, a: Props, b: Props, ts: seq<Tree>, i: nat, base: Expr, vis: Expr)
    requires Partly(c, e, was, a, ts, i, base, vis) && i < |ts| && Unique(ts)
    requires SameBut(a, b, Ids(ts[i].kids)) && BelowUpdated(c, e, was, b, ts[i], vis)
    ensures Partly(c, e, was, b, ts, i + 1, base, vis)
  {
    hide Ids, Unique, BelowUpdated, MakeAnd, NewPrompt, NewConds;
    forall k | 0 <= k < |ts| ensures Updated(c, e, was, b, ts[k].id, base, vis) && a.Has(ts[k].id) {
      PartOf(ts, i);
      if k < i { PartsApart(ts, k, i); } else if i < k { PartsApart(ts, i, k); }
      assert SameProps(a, b, ts[k].id);
    }
    forall k | 0 <= k < i ensures BelowUpdated(c, e, was, b, ts[k], vis) {
      PartsApart(ts, k, i);
      BelowFrame(c, e, was, a, b, ts[k], vis);
    }
    forall k | i < k < |ts| ensures KeptOn(was, b, Ids(ts[k].kids)) {
      PartsApart(ts, i, k);
      assert KeptOn(was, a, Ids(ts[k].kids));
      forall n | n in Ids(ts[k].kids) ensures SameProps(was, b, n) { assert SameProps(was, a, n) && SameProps(a, b, n); }
    }
  }

  lemma {:induction false} OneUnique(t: Tree)
    requires Unique([t])
    ensures Unique(t.kids) && t.id !in Ids(t.kids)
  {
  }

  lemma {:induction false} TopsIn(ts: seq<Tree>)
    ensures Tops(ts) <= Ids(ts)
  {
    forall k | 0 <= k < |ts| ensures ts[k].id in Ids(ts) { PartOf(ts, k); }
  }

  lemma {:induction false} TopMeans(c: Consts, cfg: Config, e: Entries, s: Props, dep: Expr)
    ensures Means(c, cfg, dep, [dep] + Around(e, s, [])) && Means(c, cfg, Ref(c.y), VisibleIfs(e, []))
  {
    MeansItself(c, cfg, dep);
    assert [dep] + [] == [dep];
  }

  /** The whole tree, from the top node down: what is handed down, and what the conditions then mean. */
  method PropagateMenu(c: Consts, e: Entries, props: Props, t: Tree, ghost cfg: Config) returns (now: Props)
    requires Unique([t]) && props.Has(t.id) && HasAll(props, Ids(t.kids))
    ensures BelowUpdated(c, e, props, now, t, Ref(c.y)) && SameBut(props, now, Ids(t.kids))
    ensures BelowSettled(c, cfg, e, props, now, t, [])
  {
    hide Means, BelowSettled, BelowUpdated, Ids, Unique;
    var p := new Propagation(c, e, props);
    p.Propagate(t, Ref(c.y), props);
    now := p.s;
    OneUnique(t);
    assert SameProps(props, now, t.id);
    TopMeans(c, cfg, e, props, props.dep[t.id]);
    UpdatedMeans(c, cfg, e, props, now, t, Ref(c.y), []);
  }
}
