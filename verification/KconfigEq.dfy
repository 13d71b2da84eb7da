/** Constant elimination, syntactic equality and removal of common operands
    (kconf/expr.c:141-389). The two slots `ep1` and `ep2` of the elimination always point
    into two separate trees, so it is a function from a pair of trees to a pair of trees. */
module KconfigEq {
  import opened KconfigExpr

  // ----- expr_eliminate_yn -----

  function EliminateYN(e: Expr): (r: Expr)
    ensures Size(r) <= Size(e)
  {
    match e
    case Bin(op, l, r) =>
      var l', r' := EliminateYN(l), EliminateYN(r);
      var zero := Ident(Flip(op));
      if l' == zero then zero
      else if l' == Ident(op) then r'
      else if r' == zero then zero
      else if r' == Ident(op) then l'
      else Bin(op, l', r')
    case _ => e
  }

  lemma {:induction false} EliminateYNKeepsValue(e: Expr, env: Env)
    requires ValidEnv(env)
    ensures Val(EliminateYN(e), env) == Val(e, env)
  {
    if e.Bin? {
      EliminateYNKeepsValue(e.lhs, env);
      EliminateYNKeepsValue(e.rhs, env);
    }
  }

  predicate IsYN(e: Expr) {
    e == Sym(SymYes) || e == Sym(SymNo)
  }

  /** No operand of && or || is the constant y or n (negations are not looked into). */
  predicate NoYNOperand(e: Expr) {
    e.Bin? ==> !IsYN(e.lhs) && !IsYN(e.rhs) && NoYNOperand(e.lhs) && NoYNOperand(e.rhs)
  }

  lemma {:induction false} EliminateYNComplete(e: Expr)
    ensures NoYNOperand(EliminateYN(e))
  {
    if e.Bin? {
      EliminateYNComplete(e.lhs);
      EliminateYNComplete(e.rhs);
    }
  }

  lemma {:induction false} EliminateYNKeepsShape(k: set<Symbol>, e: Expr)
    ensures NotOnSymbols(e) ==> NotOnSymbols(EliminateYN(e))
    ensures ConstsIn(k, e) ==> ConstsIn(k, EliminateYN(e))
  {
    if e.Bin? {
      EliminateYNKeepsShape(k, e.lhs);
      EliminateYNKeepsShape(k, e.rhs);
    }
  }

  // ----- expr_eq and expr_eliminate_eq -----

  predicate IsNode(op: Op, e: Expr) {
    e.Bin? && e.op == op
  }

  /** expr_eq. */
  predicate Eq(e1: Expr, e2: Expr)
    decreases Size(e1) + Size(e2), 2
  {
    match (e1, e2)
    case (Cmp(rel1, l1, r1), Cmp(rel2, l2, r2)) => rel1 == rel2 && l1 == l2 && r1 == r2
    case (Sym(s1), Sym(s2)) => s1 == s2
    case (Not(a1), Not(a2)) => Eq(a1, a2)
    case (Bin(op1, _, _), Bin(op2, _, _)) =>
      op1 == op2 &&
      var r := EliminateEq(e1, e2);
      r.0.Sym? && r.1.Sym? && r.0.sym == r.1.sym
    case _ => false
  }

  /** The test two leaves must pass to be taken out of both trees. */
  predicate Cancels(e1: Expr, e2: Expr)
    decreases Size(e1) + Size(e2), 3
  {
    !(e1 == e2 && IsYN(e1)) && Eq(e1, e2)
  }

  /** __expr_eliminate_eq: every leaf of one tree against every leaf of the other. */
  function EliminateEq1(op: Op, e1: Expr, e2: Expr): (r: (Expr, Expr))
    ensures Size(r.0) <= Size(e1) && Size(r.1) <= Size(e2)
    ensures IsNode(op, e1) <==> IsNode(op, r.0)
    ensures IsNode(op, e2) <==> IsNode(op, r.1)
    decreases Size(e1) + Size(e2), if IsNode(op, e1) || IsNode(op, e2) then 0 else 4
  {
    if IsNode(op, e1) then
      var a := EliminateEq1(op, e1.lhs, e2);
      var b := EliminateEq1(op, e1.rhs, a.1);
      (Bin(op, a.0, b.0), b.1)
    else if IsNode(op, e2) then
      var a := EliminateEq1(op, e1, e2.lhs);
      var b := EliminateEq1(op, a.0, e2.rhs);
      (b.0, Bin(op, a.1, b.1))
    else if Cancels(e1, e2) then
      (Ident(op), Ident(op))
    else
      (e1, e2)
  }

  /** The first of the two passes of expr_eliminate_eq, by the type of the first tree. */
  function FirstPass(e1: Expr, e2: Expr): (r: (Expr, Expr))
    ensures Size(r.0) <= Size(e1) && Size(r.1) <= Size(e2)
    decreases Size(e1) + Size(e2), 1, 0
  {
    if e1.Bin? then EliminateEq1(e1.op, e1, e2) else (e1, e2)
  }

  /** expr_eliminate_eq. */
  function EliminateEq(e1: Expr, e2: Expr): (r: (Expr, Expr))
    ensures Size(r.0) <= Size(e1) && Size(r.1) <= Size(e2)
    decreases Size(e1) + Size(e2), 1, 1
  {
    var a := FirstPass(e1, e2);
    var b := if a.1.Bin? && !IsNode(a.1.op, a.0) then EliminateEq1(a.1.op, a.0, a.1) else a;
    (EliminateYN(b.0), EliminateYN(b.1))
  }

  // ----- what was taken out -----

  /** The operands EliminateEq1 takes out, joined by `op`. */
  ghost function Taken(op: Op, e1: Expr, e2: Expr): Expr
    decreases Size(e1) + Size(e2)
  {
    if IsNode(op, e1) then
      Bin(op, Taken(op, e1.lhs, e2), Taken(op, e1.rhs, EliminateEq1(op, e1.lhs, e2).1))
    else if IsNode(op, e2) then
      Bin(op, Taken(op, e1, e2.lhs), Taken(op, EliminateEq1(op, e1, e2.lhs).0, e2.rhs))
    else if Cancels(e1, e2) then e1
    else Ident(op)
  }

  lemma {:induction false} EqIsEquivalence(e1: Expr, e2: Expr, env: Env)
    requires ValidEnv(env) && Eq(e1, e2)
    ensures Val(e1, env) == Val(e2, env)
    decreases Size(e1) + Size(e2), 2
  {
    if e1.Not? {
      EqIsEquivalence(e1.arg, e2.arg, env);
    } else if e1.Bin? {
      CommonFactorRemoved(e1, e2, env);
    }
  }

  lemma Regroup(op: Op, c: Tri, x: Tri, d: Tri, y: Tri, z: Tri)
    ensures Apply(op, Apply(op, c, x), Apply(op, d, y)) == Apply(op, Apply(op, c, d), Apply(op, x, y))
    ensures Apply(op, c, Apply(op, d, z)) == Apply(op, Apply(op, c, d), z)
  {
  }

  /** Each old tree is the taken operands combined, by one and the same operator, with
      its new tree. */
  lemma {:induction false} TakenRestores(op: Op, e1: Expr, e2: Expr, env: Env)
    requires ValidEnv(env)
    ensures var r := EliminateEq1(op, e1, e2);
            var c := Val(Taken(op, e1, e2), env);
            Val(e1, env) == Apply(op, c, Val(r.0, env)) && Val(e2, env) == Apply(op, c, Val(r.1, env))
    decreases Size(e1) + Size(e2), if IsNode(op, e1) || IsNode(op, e2) then 0 else 4
  {
    if IsNode(op, e1) {
      var a := EliminateEq1(op, e1.lhs, e2);
      var b := EliminateEq1(op, e1.rhs, a.1);
      TakenRestores(op, e1.lhs, e2, env);
      TakenRestores(op, e1.rhs, a.1, env);
      Regroup(op, Val(Taken(op, e1.lhs, e2), env), Val(a.0, env),
              Val(Taken(op, e1.rhs, a.1), env), Val(b.0, env), Val(b.1, env));
    } else if IsNode(op, e2) {
      var a := EliminateEq1(op, e1, e2.lhs);
      var b := EliminateEq1(op, a.0, e2.rhs);
      TakenRestores(op, e1, e2.lhs, env);
      TakenRestores(op, a.0, e2.rhs, env);
      Regroup(op, Val(Taken(op, e1, e2.lhs), env), Val(a.1, env),
              Val(Taken(op, a.0, e2.rhs), env), Val(b.1, env), Val(b.0, env));
    } else if Cancels(e1, e2) {
      EqIsEquivalence(e1, e2, env);
    }
  }

  /** When the second tree is a single operand, the pass either cancels that operand or
      changes nothing. */
  lemma {:induction false} SingleOperand(op: Op, e1: Expr, e2: Expr)
    requires !IsNode(op, e2)
    ensures var r := EliminateEq1(op, e1, e2);
            (r == (e1, e2) && forall env | ValidEnv(env) :: Val(Taken(op, e1, e2), env) == Val(Ident(op), env))
            || r.1 == Ident(op)
    decreases e1
  {
    if IsNode(op, e1) {
      SingleOperand(op, e1.lhs, e2);
      SingleOperand(op, e1.rhs, EliminateEq1(op, e1.lhs, e2).1);
    }
  }

  /** The operator and the common operand that expr_eliminate_eq removes. */
  ghost function CommonFactor(e1: Expr, e2: Expr): (Op, Expr) {
    var a := FirstPass(e1, e2);
    if a.1.Bin? && !IsNode(a.1.op, a.0) then (a.1.op, Taken(a.1.op, a.0, a.1))
    else if e1.Bin? then (e1.op, Taken(e1.op, e1, e2))
    else (AndOp, Sym(SymYes))
  }

  /** expr_eliminate_eq divides both expressions by one common factor. */
  lemma {:induction false} CommonFactorRemoved(e1: Expr, e2: Expr, env: Env)
    requires ValidEnv(env)
    ensures var r := EliminateEq(e1, e2);
            var (op, c) := CommonFactor(e1, e2);
            Val(e1, env) == Apply(op, Val(c, env), Val(r.0, env)) &&
            Val(e2, env) == Apply(op, Val(c, env), Val(r.1, env))
    decreases Size(e1) + Size(e2), 1
  {
    var a := FirstPass(e1, e2);
    if a.1.Bin? && !IsNode(a.1.op, a.0) {
      if e1.Bin? {
        SingleOperand(e1.op, e1, e2);
        assert a == (e1, e2);
      }
      TakenRestores(a.1.op, a.0, a.1, env);
      var b := EliminateEq1(a.1.op, a.0, a.1);
      EliminateYNKeepsValue(b.0, env);
      EliminateYNKeepsValue(b.1, env);
    } else {
      if e1.Bin? {
        TakenRestores(e1.op, e1, e2, env);
      }
      EliminateYNKeepsValue(a.0, env);
      EliminateYNKeepsValue(a.1, env);
    }
  }

  /** expr_eq never equates expressions of different value. */
  lemma EqSound(e1: Expr, e2: Expr)
    requires Eq(e1, e2)
    ensures Equivalent(e1, e2)
  {
    forall env: Env | ValidEnv(env) ensures Val(e1, env) == Val(e2, env) {
      EqIsEquivalence(e1, e2, env);
    }
  }

  lemma BelowYes(op: Op, c: Tri, x: Tri)
    ensures Apply(op, c, x) <= Apply(op, c, YES)
  {
  }

  /** The superset test of menu.c:474-481: if the second expression is used up, the first
      is never above it. */
  lemma ReducedToYesBounds(e1: Expr, e2: Expr, env: Env)
    requires ValidEnv(env)
    requires EliminateEq(e1, e2).1 == Sym(SymYes)
    ensures Val(e1, env) <= Val(e2, env)
  {
    CommonFactorRemoved(e1, e2, env);
    var (op, c) := CommonFactor(e1, e2);
    var v, w := Val(c, env), Val(EliminateEq(e1, e2).0, env);
    BelowYes(op, v, w);
  }

  // ----- nothing common is left -----

  ghost function Leaves(op: Op, e: Expr): set<Expr> {
    if IsNode(op, e) then Leaves(op, e.lhs) + Leaves(op, e.rhs) else {e}
  }

  ghost predicate Disjoint(op: Op, e1: Expr, e2: Expr) {
    forall l1, l2 :: l1 in Leaves(op, e1) && l2 in Leaves(op, e2) ==> !Cancels(l1, l2)
  }

  lemma {:induction false} SurvivorsAreOld(op: Op, e1: Expr, e2: Expr)
    ensures Leaves(op, EliminateEq1(op, e1, e2).0) <= Leaves(op, e1) + {Ident(op)}
    ensures Leaves(op, EliminateEq1(op, e1, e2).1) <= Leaves(op, e2) + {Ident(op)}
    decreases Size(e1) + Size(e2)
  {
    if IsNode(op, e1) {
      SurvivorsAreOld(op, e1.lhs, e2);
      SurvivorsAreOld(op, e1.rhs, EliminateEq1(op, e1.lhs, e2).1);
    } else if IsNode(op, e2) {
      SurvivorsAreOld(op, e1, e2.lhs);
      SurvivorsAreOld(op, EliminateEq1(op, e1, e2.lhs).0, e2.rhs);
    }
  }

  /** After a pass no operand of one tree cancels an operand of the other. */
  lemma {:induction false} NothingCommonLeft(op: Op, e1: Expr, e2: Expr)
    ensures Disjoint(op, EliminateEq1(op, e1, e2).0, EliminateEq1(op, e1, e2).1)
    decreases Size(e1) + Size(e2)
  {
    if IsNode(op, e1) {
      var a := EliminateEq1(op, e1.lhs, e2);
      NothingCommonLeft(op, e1.lhs, e2);
      NothingCommonLeft(op, e1.rhs, a.1);
      SurvivorsAreOld(op, e1.rhs, a.1);
    } else if IsNode(op, e2) {
      var a := EliminateEq1(op, e1, e2.lhs);
      NothingCommonLeft(op, e1, e2.lhs);
      NothingCommonLeft(op, a.0, e2.rhs);
      SurvivorsAreOld(op, a.0, e2.rhs);
    }
  }
}
