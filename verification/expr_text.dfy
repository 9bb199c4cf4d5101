/**
  The expression parser and printer, over tokens. `Factor`, `Conj` and `Disj` are the derivations of
  the grammar; the parser finds the derivation of the longest expression it can read, and printing an
  expression and parsing it again gives its right-nested form.
  */
module ExprText {
  import opened Basics
  import opened KconfigModel

  /** `Other` is any token that cannot occur in an expression; `End` terminates every line. */
  datatype Token = SymT(item: nat) | RelT(op: RelOp) | AndT | OrT | NotT | OpenT | CloseT | Other | End

  datatype Factor = Plain(item: nat) | Relation(op: RelOp, lhs: nat, rhs: nat) | Negated(arg: Factor) | Group(inner: Disj)
  datatype Conj = OneFactor(f: Factor) | AndThen(f: Factor, rest: Conj)
  datatype Disj = OneConj(c: Conj) | OrElse(c: Conj, rest: Disj)

  // ---------------------------------------------------------------------------------------------
  // The tokens and the expression of a derivation

  function FactorTokens(f: Factor): (ts: seq<Token>)
    ensures |ts| > 0
  {
    match f
    case Plain(a) => [SymT(a)]
    case Relation(op, a, b) => [SymT(a), RelT(op), SymT(b)]
    case Negated(g) => [NotT] + FactorTokens(g)
    case Group(d) => [OpenT] + DisjTokens(d) + [CloseT]
  }

  function ConjTokens(c: Conj): (ts: seq<Token>)
    ensures |ts| > 0
  {
    match c
    case OneFactor(f) => FactorTokens(f)
    case AndThen(f, rest) => FactorTokens(f) + [AndT] + ConjTokens(rest)
  }

  function DisjTokens(d: Disj): (ts: seq<Token>)
    ensures |ts| > 0
  {
    match d
    case OneConj(c) => ConjTokens(c)
    case OrElse(c, rest) => ConjTokens(c) + [OrT] + DisjTokens(rest)
  }

  /** Which items stand for m and MODULES where m is rewritten to m && MODULES. */
  datatype Rewrite = Keep | RewriteM(m: nat, modules: nat)

  function FactorExpr(f: Factor, w: Rewrite): Expr {
    match f
    case Plain(a) => if w.RewriteM? && a == w.m then And(Ref(w.m), Ref(w.modules)) else Ref(a)
    case Relation(op, a, b) => Rel(op, a, b)
    case Negated(g) => Not(FactorExpr(g, w))
    case Group(d) => DisjExpr(d, w)
  }

  function ConjExpr(c: Conj, w: Rewrite): Expr {
    match c
    case OneFactor(f) => FactorExpr(f, w)
    case AndThen(f, rest) => And(FactorExpr(f, w), ConjExpr(rest, w))
  }

  function DisjExpr(d: Disj, w: Rewrite): Expr {
    match d
    case OneConj(c) => ConjExpr(c, w)
    case OrElse(c, rest) => Or(ConjExpr(c, w), DisjExpr(rest, w))
  }

  // ---------------------------------------------------------------------------------------------
  // What the parser reads

  predicate Terminated(ts: seq<Token>) { ts != [] && ts[|ts| - 1] == End }

  /** A derivation and the position after it. */
  datatype Read<T> = Read(tree: T, next: nat)

  function ReadFactor(ts: seq<Token>, i: nat): (r: Option<Read<Factor>>)
    requires Terminated(ts) && i < |ts|
    ensures r.Some? ==> i < r.value.next < |ts|
    decreases |ts| - i, 0
  {
    match ts[i]
    case SymT(a) =>
      if !ts[i + 1].RelT? then Some(Read(Plain(a), i + 1))
      else if ts[i + 2].SymT? then Some(Read(Relation(ts[i + 1].op, a, ts[i + 2].item), i + 3))
      else None
    case NotT =>
      var r := ReadFactor(ts, i + 1);
      if r.None? then None else Some(Read(Negated(r.value.tree), r.value.next))
    case OpenT =>
      var r := ReadDisj(ts, i + 1);
      if r.None? || ts[r.value.next] != CloseT then None else Some(Read(Group(r.value.tree), r.value.next + 1))
    case _ => None
  }

  function ReadConj(ts: seq<Token>, i: nat): (r: Option<Read<Conj>>)
    requires Terminated(ts) && i < |ts|
    ensures r.Some? ==> i < r.value.next < |ts|
    decreases |ts| - i, 1
  {
    var f := ReadFactor(ts, i);
    if f.None? then None
    else if ts[f.value.next] != AndT then Some(Read(OneFactor(f.value.tree), f.value.next))
    else
      var c := ReadConj(ts, f.value.next + 1);
      if c.None? then None else Some(Read(AndThen(f.value.tree, c.value.tree), c.value.next))
  }

  function ReadDisj(ts: seq<Token>, i: nat): (r: Option<Read<Disj>>)
    requires Terminated(ts) && i < |ts|
    ensures r.Some? ==> i < r.value.next < |ts|
    decreases |ts| - i, 2
  {
    var c := ReadConj(ts, i);
    if c.None? then None
    else if ts[c.value.next] != OrT then Some(Read(OneConj(c.value.tree), c.value.next))
    else
      var d := ReadDisj(ts, c.value.next + 1);
      if d.None? then None else Some(Read(OrElse(c.value.tree, d.value.tree), d.value.next))
  }

  // ---------------------------------------------------------------------------------------------
  // Soundness: the tokens read are those of the derivation

  lemma {:induction false} FactorSound(ts: seq<Token>, i: nat)
    requires Terminated(ts) && i < |ts| && ReadFactor(ts, i).Some?
    ensures var r := ReadFactor(ts, i).value; FactorTokens(r.tree) == ts[i..r.next]
    decreases |ts| - i, 0
  {
    match ts[i]
    case SymT(_) =>
    case NotT =>
      FactorSound(ts, i + 1);
      var n := ReadFactor(ts, i).value.next;
      assert ts[i..n] == [NotT] + ts[i + 1..n];
    case OpenT =>
      DisjSound(ts, i + 1);
      var n := ReadFactor(ts, i).value.next;
      assert ts[i..n] == [OpenT] + ts[i + 1..n - 1] + [CloseT];
    case _ =>
  }

  lemma {:induction false} ConjSound(ts: seq<Token>, i: nat)
    requires Terminated(ts) && i < |ts| && ReadConj(ts, i).Some?
    ensures var r := ReadConj(ts, i).value; ConjTokens(r.tree) == ts[i..r.next]
    decreases |ts| - i, 1
  {
    FactorSound(ts, i);
    var f := ReadFactor(ts, i).value;
    if ts[f.next] == AndT { ConjSound(ts, f.next + 1); }
  }

  lemma {:induction false} DisjSound(ts: seq<Token>, i: nat)
    requires Terminated(ts) && i < |ts| && ReadDisj(ts, i).Some?
    ensures var r := ReadDisj(ts, i).value; DisjTokens(r.tree) == ts[i..r.next]
    decreases |ts| - i, 2
  {
    ConjSound(ts, i);
    var c := ReadConj(ts, i).value;
    if ts[c.next] == OrT { DisjSound(ts, c.next + 1); }
  }

  // ---------------------------------------------------------------------------------------------
  // Completeness: a derivation that the next token does not continue is found

  /** `part` stands at position `i` of `ts`, with a token after it. */
  ghost predicate Stands(ts: seq<Token>, i: nat, part: seq<Token>) {
    i + |part| < |ts| && ts[i..i + |part|] == part
  }

  lemma {:induction false} StandsParts(ts: seq<Token>, i: nat, a: seq<Token>, b: seq<Token>)
    requires Stands(ts, i, a + b) && b != []
    ensures Stands(ts, i, a) && Stands(ts, i + |a|, b) && ts[i + |a|] == b[0]
  {
    var w := ts[i..i + |a + b|];
    assert ts[i..i + |a|] == w[..|a|];
    assert ts[i + |a|..i + |a| + |b|] == w[|a|..];
    assert w[|a|] == b[0];
  }

  lemma {:induction false} StandsThree(ts: seq<Token>, i: nat, a: seq<Token>, t: Token, b: seq<Token>)
    requires Stands(ts, i, a + [t] + b) && b != []
    ensures Stands(ts, i, a) && i + |a| < |ts| && ts[i + |a|] == t && Stands(ts, i + |a| + 1, b)
  {
    assert a + [t] + b == a + ([t] + b);
    StandsParts(ts, i, a, [t] + b);
    StandsParts(ts, i + |a|, [t], b);
  }

  lemma {:induction false} FactorComplete(ts: seq<Token>, i: nat, f: Factor)
    requires Terminated(ts) && Stands(ts, i, FactorTokens(f)) && !ts[i + |FactorTokens(f)|].RelT?
    ensures ReadFactor(ts, i) == Some(Read(f, i + |FactorTokens(f)|))
    decreases f
  {
    hide ReadConj, ReadDisj, ConjTokens, DisjTokens;
    match f
    case Plain(a) => assert ts[i..i + 1][0] == ts[i];
    case Relation(op, a, b) =>
      var w := ts[i..i + 3];
      assert w[0] == ts[i] && w[1] == ts[i + 1] && w[2] == ts[i + 2];
    case Negated(g) =>
      StandsThree(ts, i, [], NotT, FactorTokens(g));
      FactorComplete(ts, i + 1, g);
    case Group(d) =>
      var b := DisjTokens(d) + [CloseT];
      assert FactorTokens(f) == [] + [OpenT] + b;
      StandsThree(ts, i, [], OpenT, b);
      StandsParts(ts, i + 1, DisjTokens(d), [CloseT]);
      DisjComplete(ts, i + 1, d);
  }

  lemma {:induction false} ConjComplete(ts: seq<Token>, i: nat, c: Conj)
    requires Terminated(ts) && Stands(ts, i, ConjTokens(c))
    requires var t := ts[i + |ConjTokens(c)|]; !t.RelT? && t != AndT
    ensures ReadConj(ts, i) == Some(Read(c, i + |ConjTokens(c)|))
    decreases c
  {
    hide ReadFactor, FactorTokens, Stands;
    if c.AndThen? {
      StandsThree(ts, i, FactorTokens(c.f), AndT, ConjTokens(c.rest));
      ConjComplete(ts, i + |FactorTokens(c.f)| + 1, c.rest);
    }
    FactorComplete(ts, i, c.f);
  }

  lemma {:induction false} DisjComplete(ts: seq<Token>, i: nat, d: Disj)
    requires Terminated(ts) && Stands(ts, i, DisjTokens(d))
    requires var t := ts[i + |DisjTokens(d)|]; !t.RelT? && t != AndT && t != OrT
    ensures ReadDisj(ts, i) == Some(Read(d, i + |DisjTokens(d)|))
    decreases d
  {
    hide ReadConj, ConjTokens, Stands;
    if d.OrElse? {
      StandsThree(ts, i, ConjTokens(d.c), OrT, DisjTokens(d.rest));
      DisjComplete(ts, i + |ConjTokens(d.c)| + 1, d.rest);
    }
    ConjComplete(ts, i, d.c);
  }

  /** A line is accepted exactly when the grammar derives it, and by one derivation only. */
  lemma {:induction false} LineParses(body: seq<Token>, d: Disj)
    ensures (ReadDisj(body + [End], 0) == Some(Read(d, |body|))) <==> body == DisjTokens(d)
  {
    var ts := body + [End];
    if body == DisjTokens(d) {
      assert ts[0..|body|] == body;
      DisjComplete(ts, 0, d);
    }
    if ReadDisj(ts, 0) == Some(Read(d, |body|)) {
      DisjSound(ts, 0);
      assert ts[0..|body|] == body;
    }
  }

  // ---------------------------------------------------------------------------------------------
  // Printing

  function SymTokens(cfg: Config, i: nat): seq<Token> {
    if cfg.At(i).Choice? then [RelT(Less), Other, RelT(Greater)] else [SymT(i)]
  }

  function Print(cfg: Config, e: Expr): seq<Token>
    decreases e, 0
  {
    match e
    case Ref(i) => SymTokens(cfg, i)
    case And(a, b) => Parenthesize(cfg, a, a.Or?) + [AndT] + Parenthesize(cfg, b, b.Or?)
    case Or(a, b) => Parenthesize(cfg, a, a.And?) + [OrT] + Parenthesize(cfg, b, b.And?)
    case Not(a) => if a.Ref? then [NotT] + SymTokens(cfg, a.item) else [NotT] + Parenthesize(cfg, a, true)
    case Rel(op, a, b) => SymTokens(cfg, a) + [RelT(op)] + SymTokens(cfg, b)
  }

  function Parenthesize(cfg: Config, e: Expr, p: bool): seq<Token>
    decreases e, 1
  {
    if p then [OpenT] + Print(cfg, e) + [CloseT] else Print(cfg, e)
  }

  predicate ChoiceFree(cfg: Config, e: Expr) {
    match e
    case Ref(i) => !cfg.At(i).Choice?
    case And(a, b) => ChoiceFree(cfg, a) && ChoiceFree(cfg, b)
    case Or(a, b) => ChoiceFree(cfg, a) && ChoiceFree(cfg, b)
    case Not(a) => ChoiceFree(cfg, a)
    case Rel(_, a, b) => !cfg.At(a).Choice? && !cfg.At(b).Choice?
  }

  function JoinAnd(a: Expr, b: Expr): Expr { if a.And? then And(a.left, JoinAnd(a.right, b)) else And(a, b) }

  function JoinOr(a: Expr, b: Expr): Expr { if a.Or? then Or(a.left, JoinOr(a.right, b)) else Or(a, b) }

  /** Chains of && and of || nested to the right; everything else as it was. */
  function RightNested(e: Expr): (r: Expr)
    ensures r.And? == e.And? && r.Or? == e.Or?
  {
    match e
    case Ref(_) => e
    case And(a, b) => JoinAnd(RightNested(a), RightNested(b))
    case Or(a, b) => JoinOr(RightNested(a), RightNested(b))
    case Not(a) => Not(RightNested(a))
    case Rel(_, _, _) => e
  }

  lemma {:induction false} JoinAndValue(cfg: Config, env: Env, a: Expr, b: Expr)
    ensures ExprValue(cfg, env, JoinAnd(a, b)) == Min(ExprValue(cfg, env, a), ExprValue(cfg, env, b))
  {
    if a.And? { JoinAndValue(cfg, env, a.right, b); }
  }

  lemma {:induction false} JoinOrValue(cfg: Config, env: Env, a: Expr, b: Expr)
    ensures ExprValue(cfg, env, JoinOr(a, b)) == Max(ExprValue(cfg, env, a), ExprValue(cfg, env, b))
  {
    if a.Or? { JoinOrValue(cfg, env, a.right, b); }
  }

  lemma {:induction false} RightNestedValue(cfg: Config, env: Env, e: Expr)
    ensures ExprValue(cfg, env, RightNested(e)) == ExprValue(cfg, env, e)
  {
    match e
    case Ref(_) =>
    case And(a, b) =>
      RightNestedValue(cfg, env, a);
      RightNestedValue(cfg, env, b);
      JoinAndValue(cfg, env, RightNested(a), RightNested(b));
    case Or(a, b) =>
      RightNestedValue(cfg, env, a);
      RightNestedValue(cfg, env, b);
      JoinOrValue(cfg, env, RightNested(a), RightNested(b));
    case Not(a) => RightNestedValue(cfg, env, a);
    case Rel(_, _, _) =>
  }

  // The derivation of a printed expression.

  function AppendConj(a: Conj, b: Conj): Conj {
    if a.AndThen? then AndThen(a.f, AppendConj(a.rest, b)) else AndThen(a.f, b)
  }

  function AppendDisj(a: Disj, b: Disj): Disj {
    if a.OrElse? then OrElse(a.c, AppendDisj(a.rest, b)) else OrElse(a.c, b)
  }

  function PrintedFactor(e: Expr): Factor
    requires e.Ref? || e.Rel? || e.Not?
    decreases e, 0
  {
    match e
    case Ref(i) => Plain(i)
    case Rel(op, a, b) => Relation(op, a, b)
    case Not(a) => if a.Ref? then Negated(Plain(a.item)) else Negated(Group(PrintedDisj(a)))
  }

  function PrintedConj(e: Expr): Conj
    requires !e.Or?
    decreases e, 1
  {
    if e.And? then AppendConj(PrintedAndOperand(e.left), PrintedAndOperand(e.right)) else OneFactor(PrintedFactor(e))
  }

  function PrintedAndOperand(e: Expr): Conj
    decreases e, 3
  {
    if e.Or? then OneFactor(Group(PrintedDisj(e))) else PrintedConj(e)
  }

  function PrintedDisj(e: Expr): Disj
    decreases e, 2
  {
    if e.Or? then AppendDisj(PrintedOrOperand(e.left), PrintedOrOperand(e.right)) else OneConj(PrintedConj(e))
  }

  function PrintedOrOperand(e: Expr): Disj
    decreases e, 3
  {
    if e.And? then OneConj(OneFactor(Group(PrintedDisj(e)))) else PrintedDisj(e)
  }

  lemma {:induction false} AppendConjIs(a: Conj, b: Conj)
    ensures ConjTokens(AppendConj(a, b)) == ConjTokens(a) + [AndT] + ConjTokens(b)
  {
    if a.AndThen? { AppendConjIs(a.rest, b); }
  }

  lemma {:induction false} AppendDisjIs(a: Disj, b: Disj)
    ensures DisjTokens(AppendDisj(a, b)) == DisjTokens(a) + [OrT] + DisjTokens(b)
  {
    if a.OrElse? { AppendDisjIs(a.rest, b); }
  }

  lemma {:induction false} SingleFactor(f: Factor)
    ensures DisjTokens(OneConj(OneFactor(f))) == FactorTokens(f)
    ensures DisjExpr(OneConj(OneFactor(f)), Keep) == FactorExpr(f, Keep)
  {
    assert ConjTokens(OneFactor(f)) == FactorTokens(f);
    assert ConjExpr(OneFactor(f), Keep) == FactorExpr(f, Keep);
  }

  function LastFactor(c: Conj): Factor { if c.AndThen? then LastFactor(c.rest) else c.f }

  function LastConj(d: Disj): Conj { if d.OrElse? then LastConj(d.rest) else d.c }

  lemma {:induction false} AppendConjExpr(a: Conj, b: Conj)
    requires !FactorExpr(LastFactor(a), Keep).And?
    ensures ConjExpr(AppendConj(a, b), Keep) == JoinAnd(ConjExpr(a, Keep), ConjExpr(b, Keep))
    ensures LastFactor(AppendConj(a, b)) == LastFactor(b)
  {
    if a.AndThen? { AppendConjExpr(a.rest, b); }
  }

  lemma {:induction false} AppendDisjExpr(a: Disj, b: Disj)
    requires !ConjExpr(LastConj(a), Keep).Or?
    ensures DisjExpr(AppendDisj(a, b), Keep) == JoinOr(DisjExpr(a, Keep), DisjExpr(b, Keep))
    ensures LastConj(AppendDisj(a, b)) == LastConj(b)
  {
    if a.OrElse? { AppendDisjExpr(a.rest, b); }
  }

  /** The derivation of a printed expression stands for its right-nested form. */
  lemma {:induction false} PrintedFactorExpr(e: Expr)
    requires e.Ref? || e.Rel? || e.Not?
    ensures FactorExpr(PrintedFactor(e), Keep) == RightNested(e)
    decreases e, 0
  {
    if e.Not? { PrintedDisjExpr(e.arg); }
  }

  lemma {:induction false} PrintedConjExpr(e: Expr)
    requires !e.Or?
    ensures ConjExpr(PrintedConj(e), Keep) == RightNested(e) && !FactorExpr(LastFactor(PrintedConj(e)), Keep).And?
    decreases e, 1
  {
    if e.And? {
      AndOperandExpr(e.left);
      AndOperandExpr(e.right);
      AppendConjExpr(PrintedAndOperand(e.left), PrintedAndOperand(e.right));
    } else {
      PrintedFactorExpr(e);
    }
  }

  lemma {:induction false} AndOperandExpr(e: Expr)
    ensures ConjExpr(PrintedAndOperand(e), Keep) == RightNested(e)
    ensures !FactorExpr(LastFactor(PrintedAndOperand(e)), Keep).And?
    decreases e, 3
  {
    if e.Or? { PrintedDisjExpr(e); } else { PrintedConjExpr(e); }
  }

  lemma {:induction false} PrintedDisjExpr(e: Expr)
    ensures DisjExpr(PrintedDisj(e), Keep) == RightNested(e)
    ensures !ConjExpr(LastConj(PrintedDisj(e)), Keep).Or?
    decreases e, 2
  {
    if e.Or? {
      OrOperandExpr(e.left);
      OrOperandExpr(e.right);
      AppendDisjExpr(PrintedOrOperand(e.left), PrintedOrOperand(e.right));
    } else {
      PrintedConjExpr(e);
    }
  }

  lemma {:induction false} OrOperandExpr(e: Expr)
    ensures DisjExpr(PrintedOrOperand(e), Keep) == RightNested(e)
    ensures !ConjExpr(LastConj(PrintedOrOperand(e)), Keep).Or?
    decreases e, 3
  {
    PrintedDisjExpr(e);
    if e.And? { SingleFactor(Group(PrintedDisj(e))); }
  }

  lemma {:induction false} AndOperandTokens(cfg: Config, e: Expr)
    requires DisjTokens(PrintedDisj(e)) == Print(cfg, e)
    ensures ConjTokens(PrintedAndOperand(e)) == Parenthesize(cfg, e, e.Or?)
  {
    if e.Or? {
      var g := Group(PrintedDisj(e));
      assert FactorTokens(g) == [OpenT] + Print(cfg, e) + [CloseT];
      assert PrintedAndOperand(e) == OneFactor(g);
    }
  }

  lemma {:induction false} OrOperandTokens(cfg: Config, e: Expr)
    requires DisjTokens(PrintedDisj(e)) == Print(cfg, e)
    ensures DisjTokens(PrintedOrOperand(e)) == Parenthesize(cfg, e, e.And?)
  {
    if e.And? {
      var g := Group(PrintedDisj(e));
      assert FactorTokens(g) == [OpenT] + Print(cfg, e) + [CloseT];
      SingleFactor(g);
      assert PrintedOrOperand(e) == OneConj(OneFactor(g));
    }
  }

  lemma {:induction false} SingleFactorTokens(e: Expr)
    requires e.Ref? || e.Rel? || e.Not?
    ensures DisjTokens(PrintedDisj(e)) == FactorTokens(PrintedFactor(e))
  {
    var f := PrintedFactor(e);
    assert PrintedDisj(e) == OneConj(OneFactor(f));
    SingleFactor(f);
  }

  /** Its tokens are the printed ones. */
  lemma {:induction false} PrintedTokens(cfg: Config, e: Expr)
    requires ChoiceFree(cfg, e)
    ensures DisjTokens(PrintedDisj(e)) == Print(cfg, e)
    decreases e
  {
    match e
    case Ref(_) => SingleFactorTokens(e);
    case Rel(_, _, _) => SingleFactorTokens(e);
    case Not(a) =>
      PrintedTokens(cfg, a);
      SingleFactorTokens(e);
    case And(a, b) =>
      PrintedTokens(cfg, a);
      PrintedTokens(cfg, b);
      AppendConjIs(PrintedAndOperand(a), PrintedAndOperand(b));
      AndOperandTokens(cfg, a);
      AndOperandTokens(cfg, b);
    case Or(a, b) =>
      PrintedTokens(cfg, a);
      PrintedTokens(cfg, b);
      AppendDisjIs(PrintedOrOperand(a), PrintedOrOperand(b));
      OrOperandTokens(cfg, a);
      OrOperandTokens(cfg, b);
  }

  // ---------------------------------------------------------------------------------------------
  // Printing, then parsing

  /** What parsing a whole line gives. */
  function ParseLine(ts: seq<Token>, w: Rewrite): Option<Expr>
    requires Terminated(ts)
  {
    var r := ReadDisj(ts, 0);
    if r.None? || ts[r.value.next] != End then None else Some(DisjExpr(r.value.tree, w))
  }

  lemma {:induction false} FactorHasNoOther(f: Factor)
    ensures Other !in FactorTokens(f)
    decreases f
  {
    match f
    case Plain(_) =>
    case Relation(_, _, _) =>
    case Negated(g) => FactorHasNoOther(g);
    case Group(d) => DisjHasNoOther(d);
  }

  lemma {:induction false} ConjHasNoOther(c: Conj)
    ensures Other !in ConjTokens(c)
    decreases c
  {
    FactorHasNoOther(c.f);
    if c.AndThen? { ConjHasNoOther(c.rest); }
  }

  lemma {:induction false} DisjHasNoOther(d: Disj)
    ensures Other !in DisjTokens(d)
    decreases d
  {
    ConjHasNoOther(d.c);
    if d.OrElse? { DisjHasNoOther(d.rest); }
  }

  lemma {:induction false} PrintHasOther(cfg: Config, e: Expr)
    ensures End !in Print(cfg, e)
    ensures !ChoiceFree(cfg, e) <==> Other in Print(cfg, e)
  {
    match e
    case Ref(_) =>
    case Rel(_, _, _) =>
    case Not(a) => PrintHasOther(cfg, a);
    case And(a, b) =>
      PrintHasOther(cfg, a);
      PrintHasOther(cfg, b);
    case Or(a, b) =>
      PrintHasOther(cfg, a);
      PrintHasOther(cfg, b);
  }

  /**
    Printing an expression and parsing the line gives its right-nested form, with the same value in
    every environment, exactly when the expression mentions no choice; otherwise parsing fails.
    */
  lemma {:induction false} PrintParse(cfg: Config, e: Expr)
    ensures ParseLine(Print(cfg, e) + [End], Keep) == if ChoiceFree(cfg, e) then Some(RightNested(e)) else None
    ensures forall env :: ExprValue(cfg, env, RightNested(e)) == ExprValue(cfg, env, e)
  {
    var body := Print(cfg, e);
    PrintHasOther(cfg, e);
    if ChoiceFree(cfg, e) {
      PrintedTokens(cfg, e);
      PrintedDisjExpr(e);
      LineParses(body, PrintedDisj(e));
    } else {
      var r := ReadDisj(body + [End], 0);
      if r.Some? && (body + [End])[r.value.next] == End {
        DisjSound(body + [End], 0);
        assert r.value.next == |body|;
        assert (body + [End])[0..|body|] == body;
        DisjHasNoOther(r.value.tree);
        assert false;
      }
    }
    forall env ensures ExprValue(cfg, env, RightNested(e)) == ExprValue(cfg, env, e) {
      RightNestedValue(cfg, env, e);
    }
  }

  // ---------------------------------------------------------------------------------------------
  // The parser

  /** The tokens of a line and the position of the next one. Every method stays before the end of the line. */
  class Parser {
    const tokens: seq<Token>
    const rewrite: Rewrite
    var pos: nat

    ghost predicate Valid()
      reads this
    {
      Terminated(tokens) && pos < |tokens|
    }

    constructor (ts: seq<Token>, w: Rewrite)
      requires Terminated(ts)
      ensures Valid() && tokens == ts && rewrite == w && pos == 0
    {
      tokens, rewrite, pos := ts, w, 0;
    }

    method CheckToken(t: Token) returns (ok: bool)
      requires Valid() && t != End
      modifies this`pos
      ensures Valid() && ok == (tokens[old(pos)] == t) && pos == old(pos) + (if ok then 1 else 0)
    {
      if tokens[pos] == t {
        pos := pos + 1;
        return true;
      }
      return false;
    }

    method ParseExpr() returns (r: Option<Expr>)
      requires Valid()
      modifies this`pos
      ensures var d := ReadDisj(tokens, old(pos));
              if d.None? then r == None else Valid() && r == Some(DisjExpr(d.value.tree, rewrite)) && pos == d.value.next
      decreases |tokens| - pos, 2
    {
      var a := ParseAndExpr();
      if a.None? { return None; }
      var more := CheckToken(OrT);
      if !more { return a; }
      var rest := ParseExpr();
      if rest.None? { return None; }
      return Some(Or(a.value, rest.value));
    }

    method ParseAndExpr() returns (r: Option<Expr>)
      requires Valid()
      modifies this`pos
      ensures var c := ReadConj(tokens, old(pos));
              if c.None? then r == None else Valid() && r == Some(ConjExpr(c.value.tree, rewrite)) && pos == c.value.next
      decreases |tokens| - pos, 1
    {
      var f := ParseFactor();
      if f.None? { return None; }
      var more := CheckToken(AndT);
      if !more { return f; }
      var rest := ParseAndExpr();
      if rest.None? { return None; }
      return Some(And(f.value, rest.value));
    }

    method ParseFactor() returns (r: Option<Expr>)
      requires Valid()
      modifies this`pos
      ensures var f := ReadFactor(tokens, old(pos));
              if f.None? then r == None else Valid() && r == Some(FactorExpr(f.value.tree, rewrite)) && pos == f.value.next
      decreases |tokens| - pos, 0
    {
      var token := tokens[pos];
      pos := pos + 1;
      if token.SymT? {
        if !tokens[pos].RelT? {
          if rewrite.RewriteM? && token.item == rewrite.m {
            return Some(And(Ref(rewrite.m), Ref(rewrite.modules)));
          }
          return Some(Ref(token.item));
        }
        pos := pos + 1;
        var op := tokens[pos - 1].op;
        var rhs := tokens[pos];
        pos := pos + 1;
        if !rhs.SymT? { return None; }
        return Some(Rel(op, token.item, rhs.item));
      }
      if token == NotT {
        var f := ParseFactor();
        if f.None? { return None; }
        return Some(Not(f.value));
      }
      if token == OpenT {
        var e := ParseExpr();
        if e.None? { return None; }
        var closed := CheckToken(CloseT);
        if closed { return e; }
      }
      return None;
    }
  }

  method ParseExprAndEol(ts: seq<Token>, w: Rewrite) returns (r: Option<Expr>)
    requires Terminated(ts)
    ensures r == ParseLine(ts, w)
  {
    var p := new Parser(ts, w);
    r := p.ParseExpr();
    if r.Some? && p.tokens[p.pos] != End { return None; }
  }

  // ---------------------------------------------------------------------------------------------
  // Precedence

  function LineExpr(body: seq<Token>): Option<Expr> {
    var r := ReadDisj(body + [End], 0);
    if r.Some? && r.value.next == |body| then Some(DisjExpr(r.value.tree, Keep)) else None
  }

  /** && binds more tightly than ||, ! more tightly than both, and a relation more tightly than !. */
  lemma {:induction false} Precedence(a: nat, b: nat, c: nat, op: RelOp)
    ensures LineExpr([SymT(a), OrT, SymT(b), AndT, SymT(c)]) == Some(Or(Ref(a), And(Ref(b), Ref(c))))
    ensures LineExpr([SymT(a), AndT, SymT(b), OrT, SymT(c)]) == Some(Or(And(Ref(a), Ref(b)), Ref(c)))
    ensures LineExpr([NotT, SymT(a), RelT(op), SymT(b), AndT, SymT(c)]) == Some(And(Not(Rel(op, a, b)), Ref(c)))
    ensures LineExpr([OpenT, SymT(a), OrT, SymT(b), CloseT, AndT, SymT(c)]) == Some(And(Or(Ref(a), Ref(b)), Ref(c)))
  {
    var fa, fb, fc := Plain(a), Plain(b), Plain(c);
    hide LineExpr, FactorTokens, ConjTokens, DisjTokens, FactorExpr, ConjExpr, DisjExpr;
    Symbols(a, b, c, op);
    One(fa);
    One(fb);
    One(fc);
    Both(fb, fc);
    Either(OneFactor(fa), OneConj(AndThen(fb, OneFactor(fc))));
    LineIs([SymT(a), OrT, SymT(b), AndT, SymT(c)], OrElse(OneFactor(fa), OneConj(AndThen(fb, OneFactor(fc)))));
    Both(fa, fb);
    Either(AndThen(fa, OneFactor(fb)), OneConj(OneFactor(fc)));
    LineIs([SymT(a), AndT, SymT(b), OrT, SymT(c)], OrElse(AndThen(fa, OneFactor(fb)), OneConj(OneFactor(fc))));
    var n := Negated(Relation(op, a, b));
    Both(n, fc);
    LineIs([NotT, SymT(a), RelT(op), SymT(b), AndT, SymT(c)], OneConj(AndThen(n, OneFactor(fc))));
    var inner := OrElse(OneFactor(fa), OneConj(OneFactor(fb)));
    Either(OneFactor(fa), OneConj(OneFactor(fb)));
    InGroup(inner);
    Both(Group(inner), fc);
    LineIs([OpenT, SymT(a), OrT, SymT(b), CloseT, AndT, SymT(c)], OneConj(AndThen(Group(inner), OneFactor(fc))));
  }

  lemma {:induction false} Symbols(a: nat, b: nat, c: nat, op: RelOp)
    ensures forall x :: x == a || x == b || x == c ==>
              FactorTokens(Plain(x)) == [SymT(x)] && FactorExpr(Plain(x), Keep) == Ref(x)
    ensures FactorTokens(Negated(Relation(op, a, b))) == [NotT, SymT(a), RelT(op), SymT(b)]
    ensures FactorExpr(Negated(Relation(op, a, b)), Keep) == Not(Rel(op, a, b))
  {
    assert FactorTokens(Relation(op, a, b)) == [SymT(a), RelT(op), SymT(b)];
    assert FactorExpr(Relation(op, a, b), Keep) == Rel(op, a, b);
  }

  lemma {:induction false} One(f: Factor)
    ensures ConjTokens(OneFactor(f)) == FactorTokens(f) && ConjExpr(OneFactor(f), Keep) == FactorExpr(f, Keep)
    ensures DisjTokens(OneConj(OneFactor(f))) == FactorTokens(f) && DisjExpr(OneConj(OneFactor(f)), Keep) == FactorExpr(f, Keep)
  {
    assert ConjTokens(OneFactor(f)) == FactorTokens(f) && ConjExpr(OneFactor(f), Keep) == FactorExpr(f, Keep);
  }

  lemma {:induction false} Both(f: Factor, g: Factor)
    ensures var c := AndThen(f, OneFactor(g));
      && ConjTokens(c) == FactorTokens(f) + [AndT] + FactorTokens(g)
      && ConjExpr(c, Keep) == And(FactorExpr(f, Keep), FactorExpr(g, Keep))
      && DisjTokens(OneConj(c)) == ConjTokens(c) && DisjExpr(OneConj(c), Keep) == ConjExpr(c, Keep)
  {
    One(g);
    hide FactorTokens, FactorExpr;
  }

  lemma {:induction false} Either(c: Conj, d: Disj)
    ensures DisjTokens(OrElse(c, d)) == ConjTokens(c) + [OrT] + DisjTokens(d)
    ensures DisjExpr(OrElse(c, d), Keep) == Or(ConjExpr(c, Keep), DisjExpr(d, Keep))
  {
  }

  lemma {:induction false} InGroup(d: Disj)
    ensures FactorTokens(Group(d)) == [OpenT] + DisjTokens(d) + [CloseT] && FactorExpr(Group(d), Keep) == DisjExpr(d, Keep)
  {
  }

  lemma {:induction false} LineIs(body: seq<Token>, d: Disj)
    requires body == DisjTokens(d)
    ensures LineExpr(body) == Some(DisjExpr(d, Keep))
  {
    hide ReadDisj, DisjTokens, DisjExpr;
    LineParses(body, d);
  }
}
