/** The test by which menu_finalize puts a menu entry below the symbol in front of it
    (kconf/menu.c:448-483), with expr_contains_symbol and expr_depends_symbol
    (kconf/expr.c:843-898). */
module KconfigSubmenu {
  import opened Common
  import opened KconfigExpr
  import opened KconfigEq
  import opened KconfigTransform
  import opened KconfigDups
  import opened KconfigPropagate

  // ----- expr_contains_symbol -----

  predicate Contains(e: Expr, s: Symbol) {
    match e
    case Sym(x) => x == s
    case Cmp(_, l, r) => l == s || r == s
    case Not(a) => Contains(a, s)
    case Bin(_, l, r) => Contains(l, s) || Contains(r, s)
  }

  predicate OptContains(e: Option<Expr>, s: Symbol) {
    e.Some? && Contains(e.value, s)
  }

  /** The assignments differ in the value of `s` only. */
  ghost predicate DifferOnlyAt(s: Symbol, env: Env, env': Env) {
    && env'.modules == env.modules && env'.number == env.number
    && forall x :: x != s ==> env'.tri(x) == env.tri(x) && env'.val(x) == env.val(x)
  }

  lemma SameStringValue(s: Symbol, x: Symbol, env: Env, env': Env)
    requires ValidEnv(env) && ValidEnv(env') && DifferOnlyAt(s, env, env') && x != s
    ensures StringValue(x, env') == StringValue(x, env)
  {
    assert x.typ == Tristate && env.tri(x) == MOD ==> env.tri(env.modules) != NO && env'.tri(env.modules) != NO;
  }

  lemma SameOrder(l: Symbol, r: Symbol, env: Env, env': Env)
    requires env'.number == env.number
    requires StringValue(l, env') == StringValue(l, env) && StringValue(r, env') == StringValue(r, env)
    ensures Order(l, r, env') == Order(l, r, env)
  {
    assert ParseString(StringValue(l, env), l.typ, env') == ParseString(StringValue(l, env), l.typ, env);
    assert ParseString(StringValue(r, env), r.typ, env') == ParseString(StringValue(r, env), r.typ, env);
  }

  lemma SameComparison(rel: Rel, l: Symbol, r: Symbol, s: Symbol, env: Env, env': Env)
    requires ValidEnv(env) && ValidEnv(env') && DifferOnlyAt(s, env, env') && l != s && r != s
    ensures Compare(rel, l, r, env') == Compare(rel, l, r, env)
  {
    SameStringValue(s, l, env, env');
    SameStringValue(s, r, env, env');
    SameOrder(l, r, env, env');
  }

  /** An expression that does not contain the symbol does not depend on its value. */
  lemma {:induction false} NotContained(e: Expr, s: Symbol, env: Env, env': Env)
    requires ValidEnv(env) && ValidEnv(env') && DifferOnlyAt(s, env, env') && !Contains(e, s)
    ensures Val(e, env') == Val(e, env)
  {
    match e
    case Sym(_) =>
    case Cmp(rel, l, r) => SameComparison(rel, l, r, s, env, env');
    case Not(a) => NotContained(a, s, env, env');
    case Bin(_, l, r) =>
      NotContained(l, s, env, env');
      NotContained(r, s, env, env');
  }

  // ----- expr_depends_symbol -----

  predicate DependsOn(e: Expr, s: Symbol) {
    match e
    case Bin(op, l, r) => op == AndOp && (DependsOn(l, s) || DependsOn(r, s))
    case Sym(x) => x == s
    case Cmp(rel, l, r) => l == s && ((rel == Equal && (r == SymYes || r == SymMod)) || (rel == Unequal && r == SymNo))
    case Not(_) => false
  }

  predicate OptDependsOn(e: Option<Expr>, s: Symbol) {
    e.Some? && DependsOn(e.value, s)
  }

  lemma {:induction false} DependsContains(e: Expr, s: Symbol)
    requires DependsOn(e, s)
    ensures Contains(e, s)
  {
    if e.Bin? {
      if DependsOn(e.lhs, s) {
        DependsContains(e.lhs, s);
      } else {
        DependsContains(e.rhs, s);
      }
    }
  }

  /** An absolute dependency: the expression is n whenever the symbol is. */
  lemma {:induction false} DependsMeans(e: Expr, s: Symbol, env: Env)
    requires ValidEnv(env) && DependsOn(e, s) && (s.typ == Boolean || s.typ == Tristate)
    ensures env.tri(s) == NO ==> Val(e, env) == NO
  {
    match e
    case Bin(_, l, r) =>
      if DependsOn(l, s) {
        DependsMeans(l, s, env);
      } else {
        DependsMeans(r, s, env);
      }
    case Cmp(_, _, r) => CompareWithConst(s, r, env);
    case Sym(_) =>
  }

  // ----- the superset test -----

  /** expr_trans_compare(e, E_UNEQUAL, &symbol_no), a missing expression included. */
  function TestNo(e: Option<Expr>): Expr {
    if e.None? then Not(Sym(SymNo)) else CompareNo(e.value, false)
  }

  /** Under `env` the test against n is exact for `e` and all orderings in it are decided. */
  ghost predicate Plain(e: Option<Expr>, env: Env) {
    e.Some? ==> Comparable(e.value, env) && LogicalOperands(e.value) && NegatesNoMod(e.value, env)
  }

  lemma {:induction false} CompareNoComparable(e: Expr, equal: bool, env: Env)
    requires Comparable(e, env)
    ensures Comparable(CompareNo(e, equal), env)
  {
    match e
    case Not(a) => CompareNoComparable(a, !equal, env);
    case Bin(_, l, r) =>
      CompareNoComparable(l, true, env);
      CompareNoComparable(r, true, env);
    case _ =>
  }

  lemma TestNoReads(e: Option<Expr>, env: Env)
    requires ValidEnv(env) && Plain(e, env)
    ensures Val(TestNo(e), env) == FromBool(OptVal(e, env) != NO) && Comparable(TestNo(e), env)
  {
    if e.Some? {
      CompareNoExact(e.value, false, env);
      CompareNoComparable(e.value, false, env);
    }
  }

  /** `simple` is y where `e` is not n, and n where it is. */
  ghost predicate Tests(k: set<Symbol>, e: Option<Expr>, simple: Expr) {
    forall env :: ValidEnv(env) && Apart(k, env) && Plain(e, env) ==> Val(simple, env) == FromBool(OptVal(e, env) != NO)
  }

  /** The three calls of menu.c:449-450 and 472-473. */
  method Simplify(ghost k: set<Symbol>, e: Option<Expr>) returns (simple: Expr)
    requires TriConsts <= k && OptConstsIn(k, e)
    ensures Tests(k, e, simple) && ConstsIn(k, simple)
  {
    var test := TestNo(e);
    TestNoConsts(k, e);
    TransformKeepsConsts(k, test);
    simple := EliminateDups(k, Transform(test));
    forall env | ValidEnv(env) && Apart(k, env) && Plain(e, env) ensures Val(simple, env) == FromBool(OptVal(e, env) != NO) {
      TestNoReads(e, env);
      TransformKeepsValue(test, env);
    }
  }

  lemma {:induction false} CompareNoConsts(k: set<Symbol>, e: Expr, equal: bool)
    requires SymNo in k && ConstsIn(k, e)
    ensures ConstsIn(k, CompareNo(e, equal))
  {
    match e
    case Not(a) => CompareNoConsts(k, a, !equal);
    case Bin(_, l, r) =>
      CompareNoConsts(k, l, true);
      CompareNoConsts(k, r, true);
    case _ =>
  }

  lemma TestNoConsts(k: set<Symbol>, e: Option<Expr>)
    requires SymNo in k && OptConstsIn(k, e)
    ensures ConstsIn(k, TestNo(e))
  {
    if e.Some? {
      CompareNoConsts(k, e.value, false);
    }
  }

  // ----- the whole test -----

  /** Wherever the entry's condition is not n, the symbol's own prompt condition is not n. */
  ghost predicate Superset(k: set<Symbol>, dep: Option<Expr>, base: Option<Expr>) {
    forall env :: ValidEnv(env) && Apart(k, env) && Plain(dep, env) && Plain(base, env) ==>
      (OptVal(base, env) == NO ==> OptVal(dep, env) == NO)
  }

  /** Does the entry with the condition `dep` go below the symbol, whose prompt has the condition
      `base`? Exactly when the condition contains the symbol and depends on it absolutely, or
      expr_eliminate_eq uses up the test of the symbol's prompt condition. A yes means that the
      condition is n whenever the symbol is, or n whenever the symbol's prompt condition is. */
  method Belongs(ghost k: set<Symbol>, s: Symbol, base: Option<Expr>, dep: Option<Expr>)
    returns (r: bool, ghost simpleDep: Expr, ghost simpleBase: Expr)
    requires TriConsts <= k && OptConstsIn(k, base) && OptConstsIn(k, dep)
    ensures Tests(k, base, simpleBase)
    ensures OptContains(dep, s) && !OptDependsOn(dep, s) ==> Tests(k, dep, simpleDep)
    ensures r <==> OptContains(dep, s) && (OptDependsOn(dep, s) || EliminateEq(simpleDep, simpleBase).1 == Sym(SymYes))
    ensures OptDependsOn(dep, s) ==> r
    ensures r && (s.typ == Boolean || s.typ == Tristate) && OptDependsOn(dep, s) ==>
      forall env :: ValidEnv(env) ==> (env.tri(s) == NO ==> OptVal(dep, env) == NO)
    ensures r && !OptDependsOn(dep, s) ==> Superset(k, dep, base)
  {
    var basedep := Simplify(k, base);
    simpleDep, simpleBase := basedep, basedep;
    if !OptContains(dep, s) {
      if OptDependsOn(dep, s) {
        DependsContains(dep.value, s);
      }
      return false, simpleDep, simpleBase;
    }
    if OptDependsOn(dep, s) {
      if s.typ == Boolean || s.typ == Tristate {
        forall env | ValidEnv(env) ensures env.tri(s) == NO ==> OptVal(dep, env) == NO {
          DependsMeans(dep.value, s, env);
        }
      }
      return true, simpleDep, simpleBase;
    }
    var d := Simplify(k, dep);
    simpleDep := d;
    r := EliminateEq(d, basedep).1 == Sym(SymYes);
    if r {
      forall env | ValidEnv(env) && Apart(k, env) && Plain(dep, env) && Plain(base, env)
        ensures OptVal(base, env) == NO ==> OptVal(dep, env) == NO
      {
        ReducedToYesBounds(d, basedep, env);
      }
    }
  }
}
