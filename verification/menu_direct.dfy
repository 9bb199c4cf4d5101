/**
  What propagation gives the rest of the engine. A visible symbol has its dependencies met: every prompt
  carries the dependencies of its own definition, and the symbol's direct dependencies are those of all
  its definitions, or-ed. And the mode of a choice bounds the prompts of everything inside it.
  */
module MenuDirect {
  import opened Basics
  import opened KconfigModel
  import opened ConfigRoundTrip
  import opened MenuTree
  import opened MenuDeps

  /** The direct dependencies collected from the definitions, in order. */
  function DirectDep(c: Consts, s: Props, nodes: seq<nat>): Expr {
    if nodes == [] then Ref(c.n)
    else MakeOr(c, DirectDep(c, s, nodes[..|nodes| - 1]), DepOf(s, nodes[|nodes| - 1]))
  }

  /** The conditions of the prompts of the definitions, in order. */
  function PromptsOf(s: Props, nodes: seq<nat>): seq<Expr> {
    if nodes == [] then []
    else
      var n := nodes[|nodes| - 1];
      PromptsOf(s, nodes[..|nodes| - 1]) + if s.Has(n) && s.prompt[n].Some? then [s.prompt[n].value] else []
  }

  lemma {:induction false} PromptBelowDep(c: Consts, cfg: Config, e: Entries, was: Props, now: Props, n: nat, path: seq<nat>, env: Env)
    requires Settled(c, cfg, e, was, now, n, path) && Sane(c, env) && now.prompt[n].Some?
    ensures ExprValue(cfg, env, now.prompt[n].value) <= ExprValue(cfg, env, now.dep[n])
  {
    hide ExprValue, Around, VisibleIfs;
    var around := [was.dep[n]] + Around(e, was, path);
    var own := [was.prompt[n].value] + (if TakesVisibleIf(e.kind(n)) then VisibleIfs(e, path) else []);
    LeastConcat(cfg, env, own, around);
  }

  lemma {:induction false} PromptsBelowDirect(c: Consts, cfg: Config, e: Entries, was: Props, now: Props,
                                              nodes: seq<nat>, paths: seq<seq<nat>>, env: Env)
    requires |nodes| == |paths| && Sane(c, env)
    requires forall k :: 0 <= k < |nodes| ==> Settled(c, cfg, e, was, now, nodes[k], paths[k])
    ensures MaxValue(cfg, env, PromptsOf(now, nodes)) <= ExprValue(cfg, env, DirectDep(c, now, nodes))
  {
    if nodes != [] {
      hide Settled, ExprValue;
      var k := |nodes| - 1;
      var n, before := nodes[k], PromptsOf(now, nodes[..k]);
      PromptsBelowDirect(c, cfg, e, was, now, nodes[..k], paths[..k], env);
      SettledHas(c, cfg, e, was, now, n, paths[k]);
      MakeOrValue(c, cfg, env, DirectDep(c, now, nodes[..k]), now.dep[n]);
      if now.prompt[n].Some? {
        PromptBelowDep(c, cfg, e, was, now, n, paths[k], env);
        var all := before + [now.prompt[n].value];
        assert all[..|all| - 1] == before;
      } else {
        assert before + [] == before;
      }
    }
  }

  lemma {:induction false} SettledHas(c: Consts, cfg: Config, e: Entries, was: Props, now: Props, n: nat, path: seq<nat>)
    requires Settled(c, cfg, e, was, now, n, path)
    ensures now.Has(n)
  {
  }

  /** A symbol whose properties come from propagated definitions has its prompts within its dependencies. */
  lemma {:induction false} PropagatedWithinDeps(c: Consts, cfg: Config, e: Entries, was: Props, now: Props,
                             nodes: seq<nat>, paths: seq<seq<nat>>, i: nat)
    requires c.y < |cfg.items| && cfg.At(c.y).Const? && cfg.At(c.y).val == 2
    requires c.n < |cfg.items| && cfg.At(c.n).Const? && cfg.At(c.n).val == 0
    requires |nodes| == |paths| && forall k :: 0 <= k < |nodes| ==> Settled(c, cfg, e, was, now, nodes[k], paths[k])
    requires cfg.At(i).Symbol? && cfg.At(i).prompts == PromptsOf(now, nodes) && cfg.At(i).directDep == DirectDep(c, now, nodes)
    ensures PromptsWithinDeps(cfg, i)
  {
    hide Settled, ExprValue, MaxValue;
    forall env: Env | ConstsHold(cfg, env) && MaxValue(cfg, env, cfg.At(i).prompts) > 0
      ensures ExprValue(cfg, env, cfg.At(i).directDep) > 0
    {
      PromptsBelowDirect(c, cfg, e, was, now, nodes, paths, env);
    }
  }

  // ---------------------------------------------------------------------------------------------
  // Inside a choice

  /** y and n are constants with their values, and `ch` is a choice. */
  predicate ConstsAndChoice(c: Consts, cfg: Config, ch: nat) {
    && cfg.At(c.y).Const? && cfg.At(c.y).val == 2 && cfg.At(c.n).Const? && cfg.At(c.n).val == 0
    && cfg.At(ch).Choice?
  }

  lemma {:induction false} MakeAndGuarded(c: Consts, cfg: Config, a: Expr, b: Expr, ch: nat)
    requires ConstsAndChoice(c, cfg, ch) && (Guarded(cfg, a, ch) || Guarded(cfg, b, ch))
    ensures Guarded(cfg, MakeAnd(c, a, b), ch)
  {
  }

  /** The entry's dependencies and its prompt are bounded by the mode of `ch`. */
  predicate GuardedEntry(cfg: Config, s: Props, n: nat, ch: nat) {
    s.Has(n) && Guarded(cfg, s.dep[n], ch) && (s.prompt[n].Some? ==> Guarded(cfg, s.prompt[n].value, ch))
  }

  lemma {:induction false} UpdatedGuarded(c: Consts, cfg: Config, e: Entries, was: Props, now: Props, n: nat,
                                          base: Expr, visibleIf: Expr, ch: nat)
    requires Updated(c, e, was, now, n, base, visibleIf) && ConstsAndChoice(c, cfg, ch) && Guarded(cfg, base, ch)
    ensures GuardedEntry(cfg, now, n, ch)
  {
    hide MakeAnd, Guarded;
    MakeAndGuarded(c, cfg, was.dep[n], base, ch);
    MakeAndGuarded(c, cfg, visibleIf, now.dep[n], ch);
    if was.prompt[n].Some? {
      MakeAndGuarded(c, cfg, was.prompt[n].value, MakeAnd(c, visibleIf, now.dep[n]), ch);
      MakeAndGuarded(c, cfg, was.prompt[n].value, now.dep[n], ch);
    }
  }

  /** All entries below `t` are bounded, down to the next choice. */
  ghost predicate GuardedBelow(cfg: Config, e: Entries, s: Props, t: Tree, ch: nat)
    decreases t
  {
    forall k :: 0 <= k < |t.kids| ==>
      GuardedEntry(cfg, s, t.kids[k].id, ch) && (e.kind(t.kids[k].id) != ChoiceItem ==> GuardedBelow(cfg, e, s, t.kids[k], ch))
  }

  lemma {:induction false} GuardHandedDown(c: Consts, cfg: Config, e: Entries, was: Props, now: Props, t: Tree,
                                           visibleIf: Expr, ch: nat)
    requires BelowUpdated(c, e, was, now, t, visibleIf) && ConstsAndChoice(c, cfg, ch) && Guarded(cfg, Handed(e, now, t.id), ch)
    ensures GuardedBelow(cfg, e, now, t, ch)
    decreases t
  {
    hide Guarded, Updated, VisibleIfBelow;
    var vis := VisibleIfBelow(c, e, t.id, visibleIf);
    forall k | 0 <= k < |t.kids|
      ensures GuardedEntry(cfg, now, t.kids[k].id, ch)
      ensures e.kind(t.kids[k].id) != ChoiceItem ==> GuardedBelow(cfg, e, now, t.kids[k], ch)
    {
      UpdatedGuarded(c, cfg, e, was, now, t.kids[k].id, Handed(e, now, t.id), vis, ch);
      if e.kind(t.kids[k].id) != ChoiceItem { GuardHandedDown(c, cfg, e, was, now, t.kids[k], vis, ch); }
    }
  }

  /** Propagation bounds everything below a choice by the mode of the choice. */
  lemma {:induction false} ChoiceGuardsEntries(c: Consts, cfg: Config, e: Entries, was: Props, now: Props, t: Tree, visibleIf: Expr)
    requires BelowUpdated(c, e, was, now, t, visibleIf) && e.kind(t.id) == ChoiceItem
    requires ConstsAndChoice(c, cfg, e.item(t.id))
    ensures GuardedBelow(cfg, e, now, t, e.item(t.id))
  {
    GuardHandedDown(c, cfg, e, was, now, t, visibleIf, e.item(t.id));
  }

  /** So the prompts of a symbol that is defined below the choice are as `WellFormed` wants them. */
  lemma {:induction false} PropagatedGuarded(cfg: Config, s: Props, nodes: seq<nat>, ch: nat)
    requires forall k :: 0 <= k < |nodes| ==> GuardedEntry(cfg, s, nodes[k], ch)
    ensures forall k :: 0 <= k < |PromptsOf(s, nodes)| ==> Guarded(cfg, PromptsOf(s, nodes)[k], ch)
  {
    hide Guarded;
    if nodes != [] {
      PropagatedGuarded(cfg, s, nodes[..|nodes| - 1], ch);
      assert GuardedEntry(cfg, s, nodes[|nodes| - 1], ch);
    }
  }
}
