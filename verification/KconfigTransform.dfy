/** Normalisation of dependency expressions: expr_transform, expr_trans_bool,
    expr_trans_compare (kconf/expr.c) and rewrite_m (kconf/menu.c). */
module KconfigTransform {
  import opened Common
  import opened KconfigExpr

  // ----- expr_transform -----

  /** The measure under which every re-transformation shrinks: pushing a negation
      through && or || costs one. */
  function Weight(e: Expr): (n: nat)
    ensures n >= 1
  {
    match e
    case Sym(_) => 1
    case Cmp(_, _, _) => 2
    case Not(a) => 2 * Weight(a)
    case Bin(_, l, r) => 1 + Weight(l) + Weight(r)
  }

  function Complement(rel: Rel): Rel {
    match rel
    case Equal => Unequal
    case Unequal => Equal
    case Leq => Gth
    case Geq => Lth
    case Lth => Geq
    case Gth => Leq
  }

  /** The case of a bool symbol compared with y, m or n (expr.c:708-751). */
  function TransformCmp(rel: Rel, l: Symbol, r: Symbol): Expr {
    if l.typ != Boolean || !IsTriConst(r) || (rel != Equal && rel != Unequal) then Cmp(rel, l, r)
    else if r == SymMod then Sym(if rel == Equal then SymNo else SymYes)
    else if (r == SymYes) == (rel == Equal) then Sym(l)
    else Not(Sym(l))
  }

  /** Negation of a constant symbol (expr.c:804-832). */
  function NegateSymbol(s: Symbol): Expr {
    if s == SymYes then Sym(SymNo)
    else if s == SymMod then Sym(SymMod)
    else if s == SymNo then Sym(SymYes)
    else Not(Sym(s))
  }

  /** !(l op r), with the negation pushed onto the operands. */
  function DeMorgan(op: Op, l: Expr, r: Expr): (d: Expr)
    ensures Weight(d) < Weight(Not(Bin(op, l, r)))
  {
    assert Weight(Not(l)) == 2 * Weight(l) && Weight(Not(r)) == 2 * Weight(r);
    Bin(Flip(op), Not(l), Not(r))
  }

  /** expr_transform: operands first, then one rewrite at the root, which for a double
      negation and for De Morgan's laws transforms the result once more. */
  function Transform(e: Expr): (r: Expr)
    ensures Weight(r) <= Weight(e)
    decreases Weight(e)
  {
    match e
    case Sym(_) => e
    case Cmp(rel, l, r) => TransformCmp(rel, l, r)
    case Bin(op, l, r) => Bin(op, Transform(l), Transform(r))
    case Not(a) =>
      match Transform(a)
      case Not(b) => Transform(b)
      case Cmp(rel, l, r) => Cmp(Complement(rel), l, r)
      case Bin(op, l, r) => Transform(DeMorgan(op, l, r))
      case Sym(s) => NegateSymbol(s)
  }

  lemma {:induction false} TransformKeepsConsts(k: set<Symbol>, e: Expr)
    requires ConstsIn(k, e)
    ensures ConstsIn(k, Transform(e))
    decreases Weight(e)
  {
    match e
    case Sym(_) =>
    case Cmp(_, _, _) =>
    case Bin(_, l, r) =>
      TransformKeepsConsts(k, l);
      TransformKeepsConsts(k, r);
    case Not(a) =>
      TransformKeepsConsts(k, a);
      match Transform(a)
      case Not(b) => TransformKeepsConsts(k, b);
      case Bin(op, l, r) =>
        assert ConstsIn(k, Not(l)) && ConstsIn(k, Not(r));
        TransformKeepsConsts(k, DeMorgan(op, l, r));
      case _ =>
  }

  /** Every ordering in the expression can be decided under `env`. */
  ghost predicate Comparable(e: Expr, env: Env) {
    match e
    case Sym(_) => true
    case Cmp(rel, l, r) => rel == Equal || rel == Unequal || Order(l, r, env).Some?
    case Not(a) => Comparable(a, env)
    case Bin(_, l, r) => Comparable(l, env) && Comparable(r, env)
  }

  lemma {:induction false} OrderedIsComparable(e: Expr, env: Env)
    requires Ordered(e)
    ensures Comparable(e, env)
  {
    match e
    case Not(a) => OrderedIsComparable(a, env);
    case Bin(_, l, r) =>
      OrderedIsComparable(l, env);
      OrderedIsComparable(r, env);
    case _ =>
  }

  lemma {:induction false} TransformKeepsComparable(e: Expr, env: Env)
    requires Comparable(e, env)
    ensures Comparable(Transform(e), env)
    decreases Weight(e)
  {
    match e
    case Sym(_) =>
    case Cmp(_, _, _) =>
    case Bin(_, l, r) =>
      TransformKeepsComparable(l, env);
      TransformKeepsComparable(r, env);
    case Not(a) =>
      TransformKeepsComparable(a, env);
      match Transform(a)
      case Not(b) => TransformKeepsComparable(b, env);
      case Bin(op, l, r) =>
        assert Comparable(Not(l), env) && Comparable(Not(r), env);
        TransformKeepsComparable(DeMorgan(op, l, r), env);
      case _ =>
  }

  /** Turning a relation into its complement negates the comparison if and only if the operands
      can be ordered, where they have to be. */
  lemma ComplementNegates(rel: Rel, l: Symbol, r: Symbol, env: Env)
    ensures Compare(Complement(rel), l, r, env) == Negate(Compare(rel, l, r, env)) <==> Comparable(Cmp(rel, l, r), env)
  {
  }

  /** They cannot always: both a < b and a >= b are n for two symbols of unknown type. */
  lemma UnorderedBreaksTransform() returns (e: Expr, env: Env)
    ensures ValidEnv(env) && Val(Transform(e), env) == NO && Val(e, env) == YES
  {
    var a, b := Symbol(3, Other, false), Symbol(4, Other, false);
    e := Not(Cmp(Lth, a, b));
    env := Env(s => if s == SymYes then YES else if s == SymMod then MOD else NO,
               s => if s == SymYes then "y" else if s == SymMod then "m" else "n",
               SymYes, (text, base) => None);
    assert Order(a, b, env).None?;
    assert Transform(e) == Cmp(Geq, a, b);
  }

  /** expr_transform keeps the value under every assignment that decides all orderings. */
  lemma {:induction false} TransformKeepsValue(e: Expr, env: Env)
    requires ValidEnv(env) && Comparable(e, env)
    ensures Val(Transform(e), env) == Val(e, env)
    decreases Weight(e)
  {
    match e
    case Sym(_) =>
    case Cmp(rel, l, r) =>
      if l.typ == Boolean && IsTriConst(r) {
        CompareWithConst(l, r, env);
      }
    case Bin(_, l, r) =>
      TransformKeepsValue(l, env);
      TransformKeepsValue(r, env);
    case Not(a) =>
      TransformKeepsValue(a, env);
      TransformKeepsComparable(a, env);
      match Transform(a)
      case Not(b) => TransformKeepsValue(b, env);
      case Bin(op, l, r) =>
        assert Comparable(Not(l), env) && Comparable(Not(r), env);
        TransformKeepsValue(DeMorgan(op, l, r), env);
      case Cmp(rel, l, r) => ComplementNegates(rel, l, r, env);
      case Sym(_) =>
  }

  /** That is every assignment, if no operand of an ordering is of the type "other". */
  lemma TransformEquivalent(e: Expr)
    requires Ordered(e)
    ensures Equivalent(e, Transform(e))
  {
    forall env: Env | ValidEnv(env) ensures Val(e, env) == Val(Transform(e), env) {
      OrderedIsComparable(e, env);
      TransformKeepsValue(e, env);
    }
  }

  /** Negation only directly above symbols other than y, m, n; no bool symbol tested for
      equality with y, m or n. */
  predicate Normal(e: Expr) {
    match e
    case Sym(_) => true
    case Cmp(rel, l, r) => l.typ == Boolean && IsTriConst(r) ==> rel != Equal && rel != Unequal
    case Not(a) => a.Sym? && !IsTriConst(a.sym)
    case Bin(_, l, r) => Normal(l) && Normal(r)
  }

  lemma {:induction false} TransformNormalises(e: Expr)
    ensures Normal(Transform(e))
    decreases Weight(e)
  {
    match e
    case Sym(_) =>
    case Cmp(_, _, _) =>
    case Bin(_, l, r) =>
      TransformNormalises(l);
      TransformNormalises(r);
    case Not(a) =>
      TransformNormalises(a);
      match Transform(a)
      case Not(b) => TransformNormalises(b);
      case Bin(op, l, r) => TransformNormalises(DeMorgan(op, l, r));
      case _ =>
  }

  lemma {:induction false} TransformFixesNormal(e: Expr)
    requires Normal(e)
    ensures Transform(e) == e
  {
    if e.Bin? {
      TransformFixesNormal(e.lhs);
      TransformFixesNormal(e.rhs);
    }
  }

  /** A second expr_transform changes nothing. */
  lemma TransformIdempotent(e: Expr)
    ensures Transform(Transform(e)) == Transform(e)
  {
    TransformNormalises(e);
    TransformFixesNormal(Transform(e));
  }

  lemma {:induction false} NormalNotOnSymbols(e: Expr)
    requires Normal(e)
    ensures NotOnSymbols(e)
  {
    if e.Bin? {
      NormalNotOnSymbols(e.lhs);
      NormalNotOnSymbols(e.rhs);
    }
  }

  // ----- expr_trans_bool -----

  function TransBool(e: Expr): Expr {
    match e
    case Bin(op, l, r) => Bin(op, TransBool(l), TransBool(r))
    case Not(a) => Not(TransBool(a))
    case Cmp(rel, l, r) => if rel == Unequal && l.typ == Tristate && r == SymNo then Sym(l) else e
    case Sym(_) => e
  }

  /** On a condition whose negations sit on symbols, reading A!=n as A keeps whether the
      condition is n, and never raises its value. */
  lemma {:induction false} TransBoolKeepsNo(e: Expr, env: Env)
    requires ValidEnv(env) && NotOnSymbols(e)
    ensures Val(TransBool(e), env) == NO <==> Val(e, env) == NO
    ensures Val(TransBool(e), env) <= Val(e, env)
  {
    match e
    case Bin(_, l, r) =>
      TransBoolKeepsNo(l, env);
      TransBoolKeepsNo(r, env);
    case Cmp(_, l, r) =>
      if l.typ == Tristate && r == SymNo {
        CompareWithConst(l, r, env);
      }
    case _ =>
  }

  lemma {:induction false} TransBoolKeepsShape(k: set<Symbol>, e: Expr)
    ensures NotOnSymbols(e) ==> NotOnSymbols(TransBool(e))
    ensures ConstsIn(k, e) ==> ConstsIn(k, TransBool(e))
  {
    match e
    case Bin(_, l, r) =>
      TransBoolKeepsShape(k, l);
      TransBoolKeepsShape(k, r);
    case Not(a) => TransBoolKeepsShape(k, a);
    case _ =>
  }

  // ----- rewrite_m -----

  function RewriteM(e: Expr, modules: Symbol): Expr {
    match e
    case Sym(s) => if s == SymMod then Bin(AndOp, e, Sym(modules)) else e
    case Not(a) => Not(RewriteM(a, modules))
    case Bin(op, l, r) => Bin(op, RewriteM(l, modules), RewriteM(r, modules))
    case Cmp(_, _, _) => e
  }

  /** The reading rewrite_m gives an expression: the operand m counts only as far as
      MODULES does. */
  ghost function ValM(e: Expr, env: Env): Tri {
    match e
    case Sym(s) => if s == SymMod && env.tri(env.modules) == NO then NO else env.tri(s)
    case Cmp(rel, l, r) => Compare(rel, l, r, env)
    case Not(a) => Negate(ValM(a, env))
    case Bin(op, l, r) => Apply(op, ValM(l, env), ValM(r, env))
  }

  lemma {:induction false} RewriteMReads(e: Expr, env: Env)
    requires ValidEnv(env)
    ensures Val(RewriteM(e, env.modules), env) == ValM(e, env)
  {
    match e
    case Not(a) => RewriteMReads(a, env);
    case Bin(_, l, r) =>
      RewriteMReads(l, env);
      RewriteMReads(r, env);
    case _ =>
  }

  lemma {:induction false} RewriteMKeepsConsts(k: set<Symbol>, e: Expr, modules: Symbol)
    ensures ConstsIn(k, RewriteM(e, modules)) <==> ConstsIn(k, e)
  {
    match e
    case Not(a) => RewriteMKeepsConsts(k, a, modules);
    case Bin(_, l, r) =>
      RewriteMKeepsConsts(k, l, modules);
      RewriteMKeepsConsts(k, r, modules);
    case _ =>
  }

  lemma {:induction false} RewriteMKeepsComparable(e: Expr, modules: Symbol, env: Env)
    ensures Comparable(RewriteM(e, modules), env) <==> Comparable(e, env)
  {
    match e
    case Not(a) => RewriteMKeepsComparable(a, modules, env);
    case Bin(_, l, r) =>
      RewriteMKeepsComparable(l, modules, env);
      RewriteMKeepsComparable(r, modules, env);
    case _ =>
  }

  // ----- expr_trans_compare, as menu_finalize calls it: against n -----

  /** expr_trans_compare(e, rel, &symbol_no), rel being = or !=. */
  function CompareNo(e: Expr, equal: bool): Expr {
    match e
    case Bin(op, l, r) =>
      var both := Bin(Flip(op), CompareNo(l, true), CompareNo(r, true));
      if equal then both else Not(both)
    case Not(a) => CompareNo(a, !equal)
    case Cmp(_, _, _) => if equal then Not(e) else e
    case Sym(s) => Cmp(if equal then Equal else Unequal, s, SymNo)
  }

  /** Every symbol used as an operand is bool or tristate, or one of y, m, n. */
  predicate LogicalOperands(e: Expr) {
    match e
    case Sym(s) => s.typ == Boolean || s.typ == Tristate || IsTriConst(s)
    case Cmp(_, _, _) => true
    case Not(a) => LogicalOperands(a)
    case Bin(_, l, r) => LogicalOperands(l) && LogicalOperands(r)
  }

  /** No negated operand has the value m under `env`. */
  ghost predicate NegatesNoMod(e: Expr, env: Env) {
    match e
    case Not(a) => Val(a, env) != MOD && NegatesNoMod(a, env)
    case Bin(_, l, r) => NegatesNoMod(l, env) && NegatesNoMod(r, env)
    case _ => true
  }

  lemma ConstAgainstNo(c: Symbol, env: Env)
    requires ValidEnv(env) && IsTriConst(c)
    ensures Compare(Equal, c, SymNo, env) == FromBool(c == SymNo)
    ensures Compare(Unequal, c, SymNo, env) == FromBool(c != SymNo)
  {
    assert StringValue(c, env) == env.val(c) && StringValue(SymNo, env) == "n";
    assert "y"[0] != 'n' && "m"[0] != 'n';
  }

  /** The rewriting is the test against n wherever no negated operand is m. */
  lemma {:induction false} CompareNoExact(e: Expr, equal: bool, env: Env)
    requires ValidEnv(env) && LogicalOperands(e) && NegatesNoMod(e, env)
    ensures Val(CompareNo(e, equal), env) == FromBool((Val(e, env) == NO) == equal)
  {
    match e
    case Sym(s) =>
      if IsTriConst(s) {
        ConstAgainstNo(s, env);
      } else {
        CompareWithConst(s, SymNo, env);
      }
    case Cmp(_, _, _) =>
    case Not(a) => CompareNoExact(a, !equal, env);
    case Bin(_, l, r) =>
      CompareNoExact(l, true, env);
      CompareNoExact(r, true, env);
  }

  /** At a negation the rewriting is exact if and only if the negated operand is not m: the
      source compares !A with n by comparing A with n, not with y. */
  lemma CompareNoAtNegation(a: Expr, equal: bool, env: Env)
    requires ValidEnv(env) && LogicalOperands(a) && NegatesNoMod(a, env)
    ensures Val(CompareNo(Not(a), equal), env) == FromBool((Val(Not(a), env) == NO) == equal)
            <==> Val(a, env) != MOD
  {
    CompareNoExact(a, !equal, env);
  }

  /** Such an operand exists: at A = m the rewritten test says that !A is n, although it is m. */
  lemma CompareNoFails(equal: bool) returns (a: Symbol, env: Env)
    ensures ValidEnv(env) && a.typ == Tristate && env.tri(a) == MOD
    ensures Val(CompareNo(Not(Sym(a)), equal), env) != FromBool((Val(Not(Sym(a)), env) == NO) == equal)
  {
    a := Symbol(3, Tristate, false);
    env := Env(s => if s == SymYes then YES else if s == SymMod || s.typ == Tristate then MOD else NO,
               s => if s == SymYes then "y" else if s == SymMod then "m" else "n",
               SymYes, (text, base) => None);
    CompareNoAtNegation(Sym(a), equal, env);
  }
}
