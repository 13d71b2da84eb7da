/** What the searches and simplifications of kconf/expr.c find, stated without them: which pairs of
    operands are joined, which comparisons are gone, which symbols occur. */
module KconfigFinds {
  import opened Common
  import opened KconfigExpr
  import opened KconfigEq
  import opened KconfigSame
  import opened KconfigTransform
  import opened KconfigDups
  import opened KconfigSubmenu

  // ----- joins (expr.c:420-579) -----

  /** Two operands that expr_eq equates are joined, whatever they are: two that are the same always
      are. */
  lemma EqualsJoin(op: Op, e1: Expr, e2: Expr)
    ensures Eq(e1, e2) ==> Join(op, e1, e2) == Some(e1)
    ensures Join(op, e1, e1) == Some(e1)
  {
    EqReflexive(e1);
  }

  predicate Swaps(op: Op, e1: Expr, e2: Expr, j: Expr) {
    Join(op, e1, e2) == Some(j) && Join(op, e2, e1) == Some(j)
  }

  /** Two of the three values of a tristate symbol: (a=c) || (a=d) says that it does not have the
      third, (a!=c) && (a!=d) that it has it, in either order. */
  lemma TwoOfThree(a: Symbol, c: Symbol, d: Symbol, e: Symbol)
    requires a.typ == Tristate && {c, d, e} == TriConsts && c != d && d != e && c != e
    ensures Swaps(OrOp, Cmp(Equal, a, c), Cmp(Equal, a, d), Cmp(Unequal, a, e))
    ensures Swaps(AndOp, Cmp(Unequal, a, c), Cmp(Unequal, a, d), Cmp(Equal, a, e))
  {
    assert c in TriConsts && d in TriConsts && e in TriConsts;
  }

  /** (a=b) && (a!=c) for constants: n if they are the same, and a=b if they are not. */
  lemma EqualAndUnequal(a: Symbol, b: Symbol, c: Symbol)
    requires a.typ == Tristate && b.isConst && c.isConst
    ensures Swaps(AndOp, Cmp(Equal, a, b), Cmp(Unequal, a, c), if b == c then Sym(SymNo) else Cmp(Equal, a, b))
  {
  }

  /** A bool or tristate symbol together with a comparison of it, and a bool symbol or its negation. */
  lemma WithTheSymbol(a: Symbol)
    requires a.typ == Boolean || a.typ == Tristate
    ensures Swaps(AndOp, Sym(a), Cmp(Equal, a, SymYes), Cmp(Equal, a, SymYes))
    ensures Swaps(AndOp, Sym(a), Cmp(Unequal, a, SymNo), Sym(a))
    ensures Swaps(AndOp, Sym(a), Cmp(Unequal, a, SymMod), Cmp(Equal, a, SymYes))
    ensures a.typ == Boolean ==> Swaps(OrOp, Sym(a), Not(Sym(a)), Sym(SymYes))
  {
  }

  /** So after expr_eliminate_dups no operand stands twice on a level, nor do two that expr_eq
      equates. */
  lemma NoOperandAgain(e: Expr, q1: Path, q2: Path)
    requires Settled(e) && e.Bin? && IsLeafSlot(e.op, e, q1) && IsLeafSlot(e.op, e, q2) && q1 != q2
    ensures !Eq(At(e.op, e, q1), At(e.op, e, q2)) && At(e.op, e, q1) != At(e.op, e, q2)
  {
    assert PairSettled(e.op, e, q1, q2);
    EqualsJoin(e.op, At(e.op, e, q1), At(e.op, e, q2));
    EqualsJoin(e.op, At(e.op, e, q2), At(e.op, e, q1));
  }

  // ----- expr_trans_bool (expr.c:394-418) -----

  /** No tristate symbol is compared with n by !=. */
  predicate NoUnequalNo(e: Expr) {
    match e
    case Cmp(rel, l, r) => !(rel == Unequal && l.typ == Tristate && r == SymNo)
    case Not(a) => NoUnequalNo(a)
    case Bin(_, l, r) => NoUnequalNo(l) && NoUnequalNo(r)
    case Sym(_) => true
  }

  lemma {:induction false} TransBoolComplete(e: Expr)
    ensures NoUnequalNo(TransBool(e)) && (NoUnequalNo(e) ==> TransBool(e) == e)
  {
    match e
    case Not(a) => TransBoolComplete(a);
    case Bin(_, l, r) =>
      TransBoolComplete(l);
      TransBoolComplete(r);
    case _ =>
  }

  // ----- expr_contains_symbol and expr_depends_symbol (expr.c:843-898) -----

  function Symbols(e: Expr): set<Symbol> {
    match e
    case Sym(s) => {s}
    case Cmp(_, l, r) => {l, r}
    case Not(a) => Symbols(a)
    case Bin(_, l, r) => Symbols(l) + Symbols(r)
  }

  lemma {:induction false} ContainsIff(e: Expr, s: Symbol)
    ensures Contains(e, s) <==> s in Symbols(e)
  {
    match e
    case Not(a) => ContainsIff(a, s);
    case Bin(_, l, r) =>
      ContainsIff(l, s);
      ContainsIff(r, s);
    case _ =>
  }

  /** An absolute dependency is an operand of the outermost && that is the symbol itself, or says
      that it is y, that it is m, or that it is not n. */
  lemma {:induction false} DependsIff(e: Expr, s: Symbol)
    ensures DependsOn(e, s) <==>
      Leaves(AndOp, e) * {Sym(s), Cmp(Equal, s, SymYes), Cmp(Equal, s, SymMod), Cmp(Unequal, s, SymNo)} != {}
  {
    var forms := {Sym(s), Cmp(Equal, s, SymYes), Cmp(Equal, s, SymMod), Cmp(Unequal, s, SymNo)};
    if IsNode(AndOp, e) {
      DependsIff(e.lhs, s);
      DependsIff(e.rhs, s);
      assert Leaves(AndOp, e) * forms == Leaves(AndOp, e.lhs) * forms + Leaves(AndOp, e.rhs) * forms;
    } else {
      assert Leaves(AndOp, e) == {e};
      assert e in forms <==> Leaves(AndOp, e) * forms != {} by {
        if e in forms {
          assert e in Leaves(AndOp, e) * forms;
        }
      }
    }
  }
}
