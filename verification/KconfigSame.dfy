/** What expr_eq and expr_eliminate_eq (kconf/expr.c:141-295) find: expr_eq holds of every
    expression and itself, and on expressions without y and n operands it decides sameness up to
    the order and grouping of operands at every level; expr_eliminate_eq removes exactly the
    operands that two such expressions have in common. */
module KconfigSame {
  import opened KconfigExpr
  import opened KconfigEq

  // ----- every expression is equal to itself -----

  /** All operands of the level are y or n. */
  ghost predicate AllYN(op: Op, e: Expr) {
    if IsNode(op, e) then AllYN(op, e.lhs) && AllYN(op, e.rhs) else IsYN(e)
  }

  /** The level with every operand but y and n replaced. */
  ghost function Gone(op: Op, e: Expr): Expr {
    if IsNode(op, e) then Bin(op, Gone(op, e.lhs), Gone(op, e.rhs)) else if IsYN(e) then e else Ident(op)
  }

  lemma {:induction false} GoneIsYN(op: Op, e: Expr)
    ensures AllYN(op, Gone(op, e))
  {
    if IsNode(op, e) {
      GoneIsYN(op, e.lhs);
      GoneIsYN(op, e.rhs);
    }
  }

  lemma {:induction false} YNReduces(op: Op, e: Expr)
    requires AllYN(op, e)
    ensures IsYN(EliminateYN(e))
  {
    if IsNode(op, e) {
      YNReduces(op, e.lhs);
      YNReduces(op, e.rhs);
    }
  }

  /** The constants y and n cancel nothing, on either side. */
  lemma {:induction false} NothingAgainstYN(op: Op, e1: Expr, e2: Expr)
    requires AllYN(op, e1) || AllYN(op, e2)
    ensures EliminateEq1(op, e1, e2) == (e1, e2)
    decreases Size(e1) + Size(e2)
  {
    if IsNode(op, e1) {
      NothingAgainstYN(op, e1.lhs, e2);
      NothingAgainstYN(op, e1.rhs, e2);
    } else if IsNode(op, e2) {
      NothingAgainstYN(op, e1, e2.lhs);
      NothingAgainstYN(op, e1, e2.rhs);
    } else {
      YNStays(e1, e2);
      LeafPass(op, e1, e2);
    }
  }

  lemma YNStays(e1: Expr, e2: Expr)
    requires IsYN(e1) || IsYN(e2)
    ensures !Cancels(e1, e2)
  {
    assert Eq(e1, e2) ==> e1 == e2;
  }

  lemma LeafPass(op: Op, e1: Expr, e2: Expr)
    requires !IsNode(op, e1) && !IsNode(op, e2)
    ensures EliminateEq1(op, e1, e2) == if Cancels(e1, e2) then (Ident(op), Ident(op)) else (e1, e2)
  {
  }

  /** A whole tree against two: the one first, then the other. */
  lemma {:induction false} OneThenOther(op: Op, e: Expr, t: Expr, u: Expr)
    ensures var a := EliminateEq1(op, e, t);
            var b := EliminateEq1(op, a.0, u);
            EliminateEq1(op, e, Bin(op, t, u)) == (b.0, Bin(op, a.1, b.1))
    decreases e
  {
    if IsNode(op, e) {
      var a := EliminateEq1(op, e.lhs, t);
      var b := EliminateEq1(op, a.0, u);
      OneThenOther(op, e.lhs, t, u);
      OneThenOther(op, e.rhs, a.1, b.1);
    }
  }

  /** A tree against itself loses every operand. */
  lemma {:induction false} AgainstItself(op: Op, e: Expr)
    ensures EliminateEq1(op, e, e) == (Gone(op, e), Gone(op, e))
    decreases Size(e), if IsNode(op, e) then 0 else 2
  {
    if IsNode(op, e) {
      var l, r := e.lhs, e.rhs;
      AgainstItself(op, l);
      AgainstItself(op, r);
      GoneIsYN(op, l);
      OneThenOther(op, l, l, r);
      NothingAgainstYN(op, Gone(op, l), r);
      OneThenOther(op, r, Gone(op, l), r);
      NothingAgainstYN(op, r, Gone(op, l));
    } else if !IsYN(e) {
      EqReflexive(e);
    }
  }

  /** expr_eq(e, e). */
  lemma {:induction false} EqReflexive(e: Expr)
    ensures Eq(e, e)
    decreases Size(e), 1
  {
    if e.Not? {
      EqReflexive(e.arg);
    } else if e.Bin? {
      AgainstItself(e.op, e);
      GoneIsYN(e.op, e);
      YNReduces(e.op, Gone(e.op, e));
    }
  }

  /** After a pass the two levels have no operand in common but y and n. */
  lemma NoOperandTwice(op: Op, e1: Expr, e2: Expr)
    ensures var r := EliminateEq1(op, e1, e2);
            Leaves(op, r.0) * Leaves(op, r.1) <= {Sym(SymYes), Sym(SymNo)}
  {
    var r := EliminateEq1(op, e1, e2);
    NothingCommonLeft(op, e1, e2);
    forall x | x in Leaves(op, r.0) * Leaves(op, r.1) ensures x in {Sym(SymYes), Sym(SymNo)} {
      EqReflexive(x);
      assert !Cancels(x, x);
    }
  }

  // ----- sameness up to order and grouping -----

  /** An expression with every level as the bag of its operands. */
  datatype Key = SymKey(sym: Symbol) | CmpKey(rel: Rel, left: Symbol, right: Symbol) | NotKey(arg: Key) |
                 BagKey(op: Op, bag: multiset<Key>)

  function KeyOf(e: Expr): Key
    decreases Size(e), 1
  {
    match e
    case Sym(s) => SymKey(s)
    case Cmp(rel, l, r) => CmpKey(rel, l, r)
    case Not(a) => NotKey(KeyOf(a))
    case Bin(op, l, r) => BagKey(op, Keys(op, l) + Keys(op, r))
  }

  /** The operands of the level, its neutral constant apart. */
  function Keys(op: Op, e: Expr): multiset<Key>
    decreases Size(e), 2
  {
    if IsNode(op, e) then Keys(op, e.lhs) + Keys(op, e.rhs)
    else if e == Ident(op) then multiset{}
    else multiset{KeyOf(e)}
  }

  /** No operand of && or || is y or n, inside negations either. */
  predicate Clean(e: Expr) {
    match e
    case Bin(_, l, r) => !IsYN(l) && !IsYN(r) && Clean(l) && Clean(r)
    case Not(a) => Clean(a)
    case _ => true
  }

  /** Such a level, some operands of which may have been replaced. */
  predicate CleanLevel(op: Op, e: Expr) {
    if IsNode(op, e) then CleanLevel(op, e.lhs) && CleanLevel(op, e.rhs)
    else e == Ident(op) || (Clean(e) && !IsYN(e))
  }

  lemma {:induction false} CleanIsLevel(op: Op, e: Expr)
    requires Clean(e) && !IsYN(e)
    ensures CleanLevel(op, e)
  {
    if IsNode(op, e) {
      CleanIsLevel(op, e.lhs);
      CleanIsLevel(op, e.rhs);
    }
  }

  lemma {:induction false} CleanStays(e: Expr)
    requires Clean(e)
    ensures EliminateYN(e) == e
  {
    if e.Bin? {
      CleanStays(e.lhs);
      CleanStays(e.rhs);
    }
  }

  /** A level with these operands and no constants: the neutral constant if there are none, a single
      operand, or a node. */
  ghost predicate Reduced(op: Op, r: Expr, bag: multiset<Key>) {
    && CleanLevel(op, r) && Keys(op, r) == bag && r != Ident(Flip(op))
    && (bag == multiset{} <==> r == Ident(op))
    && (IsNode(op, r) ==> |bag| >= 2)
  }

  lemma ReducedPair(op: Op, x: Expr, y: Expr, bag1: multiset<Key>, bag2: multiset<Key>)
    requires Reduced(op, x, bag1) && Reduced(op, y, bag2)
    ensures Reduced(op, if x == Ident(op) then y else if y == Ident(op) then x else Bin(op, x, y), bag1 + bag2)
  {
    assert |bag1 + bag2| == |bag1| + |bag2|;
    assert bag1 == multiset{} ==> bag1 + bag2 == bag2;
    assert bag2 == multiset{} ==> bag1 + bag2 == bag1;
    assert bag1 != multiset{} ==> |bag1| >= 1;
    assert bag2 != multiset{} ==> |bag2| >= 1;
  }

  /** What is left of a level once its constants are gone. */
  lemma {:induction false} LevelReduces(op: Op, e: Expr)
    requires CleanLevel(op, e)
    ensures Reduced(op, EliminateYN(e), Keys(op, e))
  {
    if IsNode(op, e) {
      LevelReduces(op, e.lhs);
      LevelReduces(op, e.rhs);
      ReducedPair(op, EliminateYN(e.lhs), EliminateYN(e.rhs), Keys(op, e.lhs), Keys(op, e.rhs));
    } else if e != Ident(op) {
      CleanStays(e);
    }
  }

  /** The two bags of a pass over e1 as two parts, one after the other. */
  lemma BagSteps(b1: multiset<Key>, b1': multiset<Key>, b2: multiset<Key>)
    ensures (b1 - b2) + (b1' - (b2 - b1)) == (b1 + b1') - b2
    ensures (b2 - b1) - b1' == b2 - (b1 + b1')
  {
  }

  /** Each of `r` is what is left of a level without the operands of the other. */
  ghost predicate Difference(op: Op, e1: Expr, e2: Expr, r: (Expr, Expr)) {
    && CleanLevel(op, r.0) && Keys(op, r.0) == Keys(op, e1) - Keys(op, e2)
    && CleanLevel(op, r.1) && Keys(op, r.1) == Keys(op, e2) - Keys(op, e1)
  }

  lemma DifferenceLeft(op: Op, x: Expr, y: Expr, e2: Expr, a: (Expr, Expr), b: (Expr, Expr))
    requires Difference(op, x, e2, a) && Difference(op, y, a.1, b)
    ensures Difference(op, Bin(op, x, y), e2, (Bin(op, a.0, b.0), b.1))
  {
    var kx, ky, k2 := Keys(op, x), Keys(op, y), Keys(op, e2);
    BagSteps(kx, ky, k2);
    assert Keys(op, Bin(op, a.0, b.0)) == Keys(op, a.0) + Keys(op, b.0) == (kx - k2) + (ky - (k2 - kx));
    assert Keys(op, Bin(op, x, y)) == kx + ky;
  }

  lemma DifferenceRight(op: Op, e1: Expr, x: Expr, y: Expr, a: (Expr, Expr), b: (Expr, Expr))
    requires Difference(op, e1, x, a) && Difference(op, a.0, y, b)
    ensures Difference(op, e1, Bin(op, x, y), (b.0, Bin(op, a.1, b.1)))
  {
    var kx, ky, k1 := Keys(op, x), Keys(op, y), Keys(op, e1);
    BagSteps(kx, ky, k1);
    assert Keys(op, Bin(op, a.1, b.1)) == Keys(op, a.1) + Keys(op, b.1) == (kx - k1) + (ky - (k1 - kx));
    assert Keys(op, Bin(op, x, y)) == kx + ky;
  }

  lemma DifferenceLeaf(op: Op, e1: Expr, e2: Expr)
    requires CleanLevel(op, e1) && CleanLevel(op, e2) && !IsNode(op, e1) && !IsNode(op, e2)
    requires e1 == Ident(op) || e2 == Ident(op) || (Eq(e1, e2) <==> KeyOf(e1) == KeyOf(e2))
    ensures Difference(op, e1, e2, EliminateEq1(op, e1, e2))
  {
    LeafPass(op, e1, e2);
    if e1 == Ident(op) || e2 == Ident(op) {
      YNStays(e1, e2);
      assert Keys(op, Ident(op)) == multiset{};
    } else {
      assert Cancels(e1, e2) <==> KeyOf(e1) == KeyOf(e2);
      assert Keys(op, e1) == multiset{KeyOf(e1)} && Keys(op, e2) == multiset{KeyOf(e2)};
      OneKey(KeyOf(e1), KeyOf(e2));
    }
  }

  /** A pass takes out of each level exactly what the other has as well. */
  lemma {:induction false} PassIsDifference(op: Op, e1: Expr, e2: Expr)
    requires CleanLevel(op, e1) && CleanLevel(op, e2)
    ensures Difference(op, e1, e2, EliminateEq1(op, e1, e2))
    decreases Size(e1) + Size(e2), if IsNode(op, e1) || IsNode(op, e2) then 0 else 4
  {
    if IsNode(op, e1) {
      var a := EliminateEq1(op, e1.lhs, e2);
      PassIsDifference(op, e1.lhs, e2);
      PassIsDifference(op, e1.rhs, a.1);
      DifferenceLeft(op, e1.lhs, e1.rhs, e2, a, EliminateEq1(op, e1.rhs, a.1));
    } else if IsNode(op, e2) {
      var a := EliminateEq1(op, e1, e2.lhs);
      PassIsDifference(op, e1, e2.lhs);
      PassIsDifference(op, a.0, e2.rhs);
      DifferenceRight(op, e1, e2.lhs, e2.rhs, a, EliminateEq1(op, a.0, e2.rhs));
    } else {
      if e1 != Ident(op) && e2 != Ident(op) {
        EqIff(e1, e2);
      }
      DifferenceLeaf(op, e1, e2);
    }
  }

  lemma OneKey(k1: Key, k2: Key)
    ensures multiset{k1} - multiset{k2} == if k1 == k2 then multiset{} else multiset{k1}
    ensures multiset{k2} - multiset{k1} == if k1 == k2 then multiset{} else multiset{k2}
  {
  }

  /** Both passes of expr_eliminate_eq on levels of the same kind are one. */
  lemma OnePass(op: Op, e1: Expr, e2: Expr)
    requires IsNode(op, e1) && IsNode(op, e2)
    ensures var r := EliminateEq1(op, e1, e2); EliminateEq(e1, e2) == (EliminateYN(r.0), EliminateYN(r.1))
  {
  }

  /** expr_eq decides it. */
  lemma {:induction false} EqIff(e1: Expr, e2: Expr)
    requires Clean(e1) && Clean(e2)
    ensures Eq(e1, e2) <==> KeyOf(e1) == KeyOf(e2)
    decreases Size(e1) + Size(e2), 2
  {
    if e1.Not? && e2.Not? {
      EqIff(e1.arg, e2.arg);
    } else if e1.Bin? && e2.Bin? && e1.op == e2.op {
      var op := e1.op;
      CleanIsLevel(op, e1);
      CleanIsLevel(op, e2);
      PassIsDifference(op, e1, e2);
      var r := EliminateEq1(op, e1, e2);
      OnePass(op, e1, e2);
      RestDecides(op, e1, e2, r);
    }
  }

  /** The rests are the same symbol exactly when the levels were the same. */
  lemma RestDecides(op: Op, e1: Expr, e2: Expr, r: (Expr, Expr))
    requires Difference(op, e1, e2, r)
    ensures var x, y := EliminateYN(r.0), EliminateYN(r.1);
            x.Sym? && y.Sym? && x.sym == y.sym <==> Keys(op, e1) == Keys(op, e2)
  {
    RestsAre(op, e1, e2, r);
    SameRest(Keys(op, e1), Keys(op, e2));
  }

  lemma SameRest(b1: multiset<Key>, b2: multiset<Key>)
    ensures b1 - b2 == multiset{} && b2 - b1 == multiset{} <==> b1 == b2
    ensures b1 - b2 == b2 - b1 ==> b1 == b2
  {
    if b1 - b2 == b2 - b1 {
      forall k ensures b1[k] == b2[k] {
        assert (b1 - b2)[k] == (b2 - b1)[k];
      }
    }
  }

  /** expr_eliminate_eq on two levels of the same kind: each keeps the operands that the other does
      not have, and one that has none left is the neutral constant. */
  lemma EliminateEqIsDifference(op: Op, e1: Expr, e2: Expr)
    requires IsNode(op, e1) && IsNode(op, e2) && Clean(e1) && Clean(e2)
    ensures var r := EliminateEq(e1, e2);
            && Keys(op, r.0) == Keys(op, e1) - Keys(op, e2) && Keys(op, r.1) == Keys(op, e2) - Keys(op, e1)
            && (r.0 == Ident(op) <==> Keys(op, e1) <= Keys(op, e2))
            && (r.1 == Ident(op) <==> Keys(op, e2) <= Keys(op, e1))
  {
    CleanIsLevel(op, e1);
    CleanIsLevel(op, e2);
    PassIsDifference(op, e1, e2);
    OnePass(op, e1, e2);
    RestsAre(op, e1, e2, EliminateEq1(op, e1, e2));
    NoneLeft(Keys(op, e1), Keys(op, e2));
    NoneLeft(Keys(op, e2), Keys(op, e1));
  }

  lemma RestsAre(op: Op, e1: Expr, e2: Expr, r: (Expr, Expr))
    requires Difference(op, e1, e2, r)
    ensures Reduced(op, EliminateYN(r.0), Keys(op, e1) - Keys(op, e2))
    ensures Reduced(op, EliminateYN(r.1), Keys(op, e2) - Keys(op, e1))
  {
    LevelReduces(op, r.0);
    LevelReduces(op, r.1);
  }

  lemma NoneLeft(b1: multiset<Key>, b2: multiset<Key>)
    ensures b1 - b2 == multiset{} <==> b1 <= b2
  {
    if b1 - b2 == multiset{} {
      forall k ensures b1[k] <= b2[k] {
        assert (b1 - b2)[k] == 0;
      }
    }
  }

  predicate Plain(s: Symbol) {
    s != SymYes && s != SymNo
  }

  /** What is left of a level is a single operand. */
  lemma OneLeft(op: Op, e1: Expr, e2: Expr, s: Symbol)
    requires IsNode(op, e1) && IsNode(op, e2) && Clean(e1) && Clean(e2)
    ensures Keys(op, e1) - Keys(op, e2) == multiset{SymKey(s)} ==> EliminateEq(e1, e2).0 == Sym(s)
    ensures Keys(op, e2) - Keys(op, e1) == multiset{SymKey(s)} ==> EliminateEq(e1, e2).1 == Sym(s)
  {
    CleanIsLevel(op, e1);
    CleanIsLevel(op, e2);
    PassIsDifference(op, e1, e2);
    var r := EliminateEq1(op, e1, e2);
    RestsAre(op, e1, e2, r);
    OnePass(op, e1, e2);
    SingleKey(op, EliminateYN(r.0), Keys(op, e1) - Keys(op, e2), s);
    SingleKey(op, EliminateYN(r.1), Keys(op, e2) - Keys(op, e1), s);
  }

  lemma SingleKey(op: Op, r: Expr, bag: multiset<Key>, s: Symbol)
    requires Reduced(op, r, bag)
    ensures bag == multiset{SymKey(s)} ==> r == Sym(s)
  {
    if bag == multiset{SymKey(s)} {
      assert |bag| == 1 && !IsNode(op, r) && r != Ident(op);
      assert SymKey(s) in Keys(op, r);
    }
  }

  lemma KeysOfBin(op: Op, x: Expr, y: Expr)
    ensures Keys(op, Bin(op, x, y)) == Keys(op, x) + Keys(op, y)
  {
  }

  lemma KeysOfSym(op: Op, s: Symbol)
    requires Plain(s)
    ensures Keys(op, Sym(s)) == multiset{SymKey(s)}
  {
  }

  lemma MoreLeft(op: Op, e1: Expr, e2: Expr, bag: multiset<Key>, s: Symbol)
    requires IsNode(op, e1) && IsNode(op, e2) && Clean(e1) && Clean(e2)
    requires Keys(op, e1) == bag && Keys(op, e2) == bag + multiset{SymKey(s)}
    ensures EliminateEq(e1, e2) == (Ident(op), Sym(s))
  {
    EliminateEqIsDifference(op, e1, e2);
    assert (bag + multiset{SymKey(s)}) - bag == multiset{SymKey(s)};
    OneLeft(op, e1, e2, s);
  }

  /** A && B against A && B && C, and the same for ||: (y, C) and (n, C). */
  lemma ExamplePrefix(op: Op, e1: Expr, e2: Expr, s: Symbol)
    requires IsNode(op, e1) && Clean(e1) && Plain(s) && e2 == Bin(op, e1, Sym(s))
    ensures EliminateEq(e1, e2) == (Ident(op), Sym(s))
  {
    KeysOfBin(op, e1, Sym(s));
    KeysOfSym(op, s);
    MoreLeft(op, e1, e2, Keys(op, e1), s);
  }

  lemma TwoLeft(op: Op, e1: Expr, e2: Expr, bag: multiset<Key>, s: Symbol, t: Symbol)
    requires IsNode(op, e1) && IsNode(op, e2) && Clean(e1) && Clean(e2) && s != t
    requires Keys(op, e1) == bag + multiset{SymKey(s)} && Keys(op, e2) == bag + multiset{SymKey(t)}
    ensures EliminateEq(e1, e2) == (Sym(s), Sym(t))
  {
    var ks, kt := multiset{SymKey(s)}, multiset{SymKey(t)};
    assert (bag + ks) - (bag + kt) == ks && (bag + kt) - (bag + ks) == kt;
    OneLeft(op, e1, e2, s);
    OneLeft(op, e1, e2, t);
  }

  lemma KeysGrouped(op: Op, x: Expr, y: Expr, z: Expr)
    ensures Keys(op, Bin(op, x, Bin(op, y, z))) == (Keys(op, x) + Keys(op, y)) + Keys(op, z)
    ensures Keys(op, Bin(op, Bin(op, z, y), x)) == (Keys(op, x) + Keys(op, y)) + Keys(op, z)
  {
    KeysOfBin(op, x, Bin(op, y, z));
    KeysOfBin(op, y, z);
    KeysOfBin(op, Bin(op, z, y), x);
    KeysOfBin(op, z, y);
  }

  /** A && (B && FOO) against (BAR && B) && A: (FOO, BAR). */
  lemma ExampleGrouping(op: Op, e1: Expr, e2: Expr, x: Expr, y: Expr, s: Symbol, t: Symbol)
    requires e1 == Bin(op, x, Bin(op, y, Sym(s))) && e2 == Bin(op, Bin(op, Sym(t), y), x)
    requires Clean(e1) && Clean(e2) && Plain(s) && Plain(t) && s != t
    ensures EliminateEq(e1, e2) == (Sym(s), Sym(t))
  {
    KeysGrouped(op, x, y, Sym(s));
    KeysGrouped(op, x, y, Sym(t));
    KeysOfSym(op, s);
    KeysOfSym(op, t);
    TwoLeft(op, e1, e2, Keys(op, x) + Keys(op, y), s, t);
  }

  /** Operands in another order. */
  lemma Swapped(op: Op, x: Expr, y: Expr)
    ensures KeyOf(Bin(op, x, y)) == KeyOf(Bin(op, y, x))
  {
    assert Keys(op, x) + Keys(op, y) == Keys(op, y) + Keys(op, x);
  }

  /** A && (B || C) against (C || B) && A: (y, y). */
  lemma ExampleNested(op: Op, e1: Expr, e2: Expr, a: Expr, b: Expr, c: Expr, x: Expr, y: Expr)
    requires x == Bin(Flip(op), b, c) && y == Bin(Flip(op), c, b)
    requires e1 == Bin(op, a, x) && e2 == Bin(op, y, a) && Clean(e1) && Clean(e2)
    ensures EliminateEq(e1, e2) == (Ident(op), Ident(op))
  {
    Swapped(Flip(op), b, c);
    KeysOfBin(op, a, x);
    KeysOfBin(op, y, a);
    assert Keys(op, x) == Keys(op, y);
    assert Keys(op, a) + Keys(op, x) == Keys(op, y) + Keys(op, a);
    EliminateEqIsDifference(op, e1, e2);
  }
}
