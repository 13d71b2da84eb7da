/** Joining of redundant operands (kconf/expr.c:420-678).

    expr_eliminate_dups1 gets two slots that both point into one tree and writes through
    either. Here the tree is one value and a slot is a path into it. */
module KconfigDups {
  import opened Common
  import opened KconfigExpr
  import opened KconfigEq
  import opened KconfigTransform

  // ----- expr_join_or and expr_join_and -----

  predicate IsEquality(e: Expr) {
    e.Cmp? && (e.rel == Equal || e.rel == Unequal)
  }

  predicate Is(e: Expr, rel: Rel, right: Symbol) {
    e.Cmp? && e.rel == rel && e.right == right
  }

  /** The symbol an operand is about; a negation may stand above an equality only when
      `notCmp` allows it, as it does for the first operand. */
  function Subject(e: Expr, notCmp: bool): Option<Symbol> {
    match e
    case Sym(s) => Some(s)
    case Cmp(_, l, _) => if IsEquality(e) then Some(l) else None
    case Not(a) =>
      if a.Sym? then Some(a.sym)
      else if notCmp && IsEquality(a) then Some(a.left)
      else None
    case Bin(_, _, _) => None
  }

  /** The common bool or tristate symbol of two operands, if there is one. */
  function Joinable(e1: Expr, e2: Expr): Option<Symbol> {
    var s1, s2 := Subject(e1, true), Subject(e2, false);
    if s1.Some? && s1 == s2 && (s1.value.typ == Boolean || s1.value.typ == Tristate) then s1 else None
  }

  /** Both operands compare by `rel`, one with `a` and the other with `b`. */
  predicate Pair(e1: Expr, e2: Expr, rel: Rel, a: Symbol, b: Symbol) {
    (Is(e1, rel, a) && Is(e2, rel, b)) || (Is(e1, rel, b) && Is(e2, rel, a))
  }

  predicate NegationOf(e1: Expr, e2: Expr) {
    (e1.Not? && e1.arg.Sym? && e2.Sym?) || (e2.Not? && e2.arg.Sym? && e1.Sym?)
  }

  /** One operand is the bare symbol and the other compares it by `rel` with `c`. */
  predicate SymbolAnd(e1: Expr, e2: Expr, rel: Rel, c: Symbol) {
    (e1.Sym? && Is(e2, rel, c)) || (e2.Sym? && Is(e1, rel, c))
  }

  function JoinOr(e1: Expr, e2: Expr): Option<Expr> {
    var s := Joinable(e1, e2);
    if Eq(e1, e2) then Some(e1)
    else if s.None? then None
    else if s.value.typ == Tristate && Pair(e1, e2, Equal, SymYes, SymMod) then
      Some(Cmp(Unequal, s.value, SymNo))
    else if s.value.typ == Tristate && Pair(e1, e2, Equal, SymYes, SymNo) then
      Some(Cmp(Unequal, s.value, SymMod))
    else if s.value.typ == Tristate && Pair(e1, e2, Equal, SymMod, SymNo) then
      Some(Cmp(Unequal, s.value, SymYes))
    else if s.value.typ == Boolean && NegationOf(e1, e2) then Some(Sym(SymYes))
    else None
  }

  /** (a='b') && (a!='c') with constants b and c. */
  function JoinEqualUnequal(s: Symbol, b: Symbol, c: Symbol): Expr {
    if b != c then Cmp(Equal, s, b) else Sym(SymNo)
  }

  predicate BothConst(e1: Expr, e2: Expr, rel1: Rel, rel2: Rel) {
    e1.Cmp? && e2.Cmp? && e1.rel == rel1 && e2.rel == rel2 && e1.right.isConst && e2.right.isConst
  }

  function JoinAnd(e1: Expr, e2: Expr): Option<Expr> {
    var s := Joinable(e1, e2);
    if Eq(e1, e2) then Some(e1)
    else if s.None? then None
    else if SymbolAnd(e1, e2, Equal, SymYes) then Some(Cmp(Equal, s.value, SymYes))
    else if SymbolAnd(e1, e2, Unequal, SymNo) then Some(Sym(s.value))
    else if SymbolAnd(e1, e2, Unequal, SymMod) then Some(Cmp(Equal, s.value, SymYes))
    else if s.value.typ != Tristate then None
    else if BothConst(e1, e2, Equal, Unequal) then
      Some(JoinEqualUnequal(s.value, e1.right, e2.right))
    else if BothConst(e1, e2, Unequal, Equal) then
      Some(JoinEqualUnequal(s.value, e2.right, e1.right))
    else if Pair(e1, e2, Unequal, SymYes, SymNo) then Some(Cmp(Equal, s.value, SymMod))
    else if Pair(e1, e2, Unequal, SymYes, SymMod) then Some(Cmp(Equal, s.value, SymNo))
    else if Pair(e1, e2, Unequal, SymMod, SymNo) then Some(Cmp(Equal, s.value, SymYes))
    else None
  }

  function Join(op: Op, e1: Expr, e2: Expr): Option<Expr> {
    if op.OrOp? then JoinOr(e1, e2) else JoinAnd(e1, e2)
  }

  /** The value of an operand about one symbol, as a function of that symbol's value. */
  function About(e: Expr, t: Tri): Tri {
    match e
    case Sym(_) => t
    case Not(_) => Negate(t)
    case Cmp(rel, _, c) => FromBool((t == (if c == SymYes then YES else if c == SymMod then MOD else NO)) == (rel == Equal))
    case Bin(_, _, _) => NO
  }

  predicate IsAbout(e: Expr, s: Symbol) {
    e == Sym(s) || e == Not(Sym(s)) || (IsEquality(e) && e.left == s && IsTriConst(e.right))
  }

  lemma OperandValue(e: Expr, s: Symbol, env: Env)
    requires ValidEnv(env) && (s.typ == Boolean || s.typ == Tristate) && IsAbout(e, s)
    ensures Val(e, env) == About(e, env.tri(s))
  {
    if e.Cmp? {
      CompareWithConst(s, e.right, env);
    }
  }

  /** The rules of expr_join_or that go beyond equality, as a table over one symbol's value. */
  lemma JoinOrTable(e1: Expr, e2: Expr, s: Symbol, t: Tri)
    requires !Eq(e1, e2) && Joinable(e1, e2) == Some(s) && JoinOr(e1, e2).Some?
    requires s.typ == Boolean ==> t != MOD
    ensures var j := JoinOr(e1, e2).value;
            && IsAbout(e1, s) && IsAbout(e2, s)
            && if j == Sym(SymYes) then Apply(OrOp, About(e1, t), About(e2, t)) == YES
               else IsAbout(j, s) && About(j, t) == Apply(OrOp, About(e1, t), About(e2, t))
  {
  }

  /** The rules of expr_join_and for the bare symbol and a comparison (expr.c:516-529). */
  lemma SymbolAndTable(e1: Expr, e2: Expr, s: Symbol, t: Tri)
    requires !Eq(e1, e2) && Joinable(e1, e2) == Some(s) && WithSymbol(e1, e2)
    requires s.typ == Boolean ==> t != MOD
    ensures JoinAnd(e1, e2).Some? && IsAbout(e1, s) && IsAbout(e2, s) && IsAbout(JoinAnd(e1, e2).value, s)
    ensures About(JoinAnd(e1, e2).value, t) == Apply(AndOp, About(e1, t), About(e2, t))
  {
  }

  predicate WithSymbol(e1: Expr, e2: Expr) {
    SymbolAnd(e1, e2, Equal, SymYes) || SymbolAnd(e1, e2, Unequal, SymNo) || SymbolAnd(e1, e2, Unequal, SymMod)
  }

  /** The rules for two inequalities (expr.c:546-562). */
  lemma PairTable(e1: Expr, e2: Expr, s: Symbol, t: Tri)
    requires !Eq(e1, e2) && Joinable(e1, e2) == Some(s) && JoinAnd(e1, e2).Some? && !WithSymbol(e1, e2)
    requires !BothConst(e1, e2, Equal, Unequal) && !BothConst(e1, e2, Unequal, Equal)
    ensures IsAbout(e1, s) && IsAbout(e2, s) && IsAbout(JoinAnd(e1, e2).value, s)
    ensures About(JoinAnd(e1, e2).value, t) == Apply(AndOp, About(e1, t), About(e2, t))
  {
  }

  /** The rule for an equality and an inequality (expr.c:531-545), in either order. */
  lemma EqualUnequalSound(s: Symbol, b: Symbol, c: Symbol, k: set<Symbol>, env: Env)
    requires ValidEnv(env) && s.typ == Tristate && b in k && c in k && Apart(k, env)
    ensures var j := Val(JoinEqualUnequal(s, b, c), env);
            && j == Apply(AndOp, Compare(Equal, s, b, env), Compare(Unequal, s, c, env))
            && j == Apply(AndOp, Compare(Unequal, s, c, env), Compare(Equal, s, b, env))
  {
    CompareMatches(s, b, env);
    CompareMatches(s, c, env);
  }

  lemma JoinOrSound(e1: Expr, e2: Expr, env: Env)
    requires ValidEnv(env) && JoinOr(e1, e2).Some?
    ensures Val(JoinOr(e1, e2).value, env) == Apply(OrOp, Val(e1, env), Val(e2, env))
  {
    var j := JoinOr(e1, e2).value;
    if Eq(e1, e2) {
      EqIsEquivalence(e1, e2, env);
    } else {
      var s := Joinable(e1, e2).value;
      JoinOrTable(e1, e2, s, env.tri(s));
      OperandValue(e1, s, env);
      OperandValue(e2, s, env);
      if j != Sym(SymYes) {
        OperandValue(j, s, env);
      }
    }
  }

  lemma JoinAndSound(k: set<Symbol>, e1: Expr, e2: Expr, env: Env)
    requires ValidEnv(env) && Apart(k, env) && JoinAnd(e1, e2).Some? && ConstsIn(k, e1) && ConstsIn(k, e2)
    ensures Val(JoinAnd(e1, e2).value, env) == Apply(AndOp, Val(e1, env), Val(e2, env))
  {
    if Eq(e1, e2) {
      EqIsEquivalence(e1, e2, env);
      return;
    }
    var s := Joinable(e1, e2).value;
    if WithSymbol(e1, e2) {
      SymbolAndTable(e1, e2, s, env.tri(s));
      TableSound(e1, e2, s, env);
    } else if BothConst(e1, e2, Equal, Unequal) {
      EqualUnequalSound(s, e1.right, e2.right, k, env);
    } else if BothConst(e1, e2, Unequal, Equal) {
      EqualUnequalSound(s, e2.right, e1.right, k, env);
    } else {
      PairTable(e1, e2, s, env.tri(s));
      TableSound(e1, e2, s, env);
    }
  }

  lemma TableSound(e1: Expr, e2: Expr, s: Symbol, env: Env)
    requires ValidEnv(env) && Joinable(e1, e2) == Some(s) && JoinAnd(e1, e2).Some?
    requires IsAbout(e1, s) && IsAbout(e2, s) && IsAbout(JoinAnd(e1, e2).value, s)
    requires About(JoinAnd(e1, e2).value, env.tri(s)) == Apply(AndOp, About(e1, env.tri(s)), About(e2, env.tri(s)))
    ensures Val(JoinAnd(e1, e2).value, env) == Apply(AndOp, Val(e1, env), Val(e2, env))
  {
    OperandValue(e1, s, env);
    OperandValue(e2, s, env);
    OperandValue(JoinAnd(e1, e2).value, s, env);
  }

  lemma JoinSound(k: set<Symbol>, op: Op, e1: Expr, e2: Expr, env: Env)
    requires ValidEnv(env) && Apart(k, env) && Join(op, e1, e2).Some? && ConstsIn(k, e1) && ConstsIn(k, e2)
    ensures Val(Join(op, e1, e2).value, env) == Apply(op, Val(e1, env), Val(e2, env))
  {
    if op.OrOp? {
      JoinOrSound(e1, e2, env);
    } else {
      JoinAndSound(k, e1, e2, env);
    }
  }

  /** A join never grows: it is the first operand or a single symbol or comparison. */
  lemma JoinShape(op: Op, e1: Expr, e2: Expr)
    requires Join(op, e1, e2).Some?
    ensures var j := Join(op, e1, e2).value;
            j == e1 || j.Sym? || (j.Cmp? && IsTriConst(j.right)) || (j.Cmp? && j.rel == Equal && (j == e1 || j == e2))
  {
  }

  // ----- slots -----

  /** A slot: the turns taken from the root, false for left. */
  type Path = seq<bool>

  /** `p` leads from the root through nodes of type `op` only. */
  predicate OnLevel(op: Op, t: Expr, p: Path) {
    p == [] || (IsNode(op, t) && OnLevel(op, if p[0] then t.rhs else t.lhs, p[1..]))
  }

  function At(op: Op, t: Expr, p: Path): Expr
    requires OnLevel(op, t, p)
  {
    if p == [] then t else At(op, if p[0] then t.rhs else t.lhs, p[1..])
  }

  function Put(op: Op, t: Expr, p: Path, x: Expr): Expr
    requires OnLevel(op, t, p)
  {
    if p == [] then x
    else if p[0] then Bin(op, t.lhs, Put(op, t.rhs, p[1..], x))
    else Bin(op, Put(op, t.lhs, p[1..], x), t.rhs)
  }

  /** A slot that holds an operand of the level. */
  predicate IsLeafSlot(op: Op, t: Expr, p: Path) {
    OnLevel(op, t, p) && !IsNode(op, At(op, t, p))
  }

  /** The nodes of one level, without the operands below them. */
  datatype Shape = Leaf | Fork(l: Shape, r: Shape)

  function LevelShape(op: Op, t: Expr): Shape {
    if IsNode(op, t) then Fork(LevelShape(op, t.lhs), LevelShape(op, t.rhs)) else Leaf
  }

  /** Two trees with the same level shape have the same slots. */
  lemma {:induction false} SameSlots(op: Op, t: Expr, u: Expr, p: Path)
    requires LevelShape(op, t) == LevelShape(op, u) && OnLevel(op, t, p)
    ensures OnLevel(op, u, p) && LevelShape(op, At(op, t, p)) == LevelShape(op, At(op, u, p))
  {
    if p != [] {
      SameSlots(op, if p[0] then t.rhs else t.lhs, if p[0] then u.rhs else u.lhs, p[1..]);
    }
  }

  lemma {:induction false} Extend(op: Op, t: Expr, p: Path, turn: bool)
    requires OnLevel(op, t, p) && IsNode(op, At(op, t, p))
    ensures OnLevel(op, t, p + [turn])
    ensures At(op, t, p + [turn]) == if turn then At(op, t, p).rhs else At(op, t, p).lhs
  {
    if p == [] {
      assert (p + [turn])[1..] == [];
    } else {
      assert (p + [turn])[1..] == p[1..] + [turn];
      Extend(op, if p[0] then t.rhs else t.lhs, p[1..], turn);
    }
  }

  lemma {:induction false} SlotSize(op: Op, t: Expr, p: Path)
    requires OnLevel(op, t, p)
    ensures Size(At(op, t, p)) <= Size(t)
    ensures p != [] ==> Size(At(op, t, p)) < Size(t)
  {
    if p != [] {
      SlotSize(op, if p[0] then t.rhs else t.lhs, p[1..]);
    }
  }

  /** Every path below a leaf slot is that slot. */
  lemma {:induction false} LeafSlotEnds(op: Op, t: Expr, p: Path, q: Path)
    requires IsLeafSlot(op, t, p) && OnLevel(op, t, q) && p <= q
    ensures p == q
  {
    if p != [] {
      LeafSlotEnds(op, if p[0] then t.rhs else t.lhs, p[1..], q[1..]);
    }
  }

  /** A leaf slot extends a node's slot through one of its two children. */
  lemma LeafSlotBelow(op: Op, t: Expr, p: Path, q: Path)
    requires OnLevel(op, t, p) && IsNode(op, At(op, t, p)) && IsLeafSlot(op, t, q) && p <= q
    ensures p + [false] <= q || p + [true] <= q
  {
    assert |q| == |p| ==> q == p;
    var q' := p + [q[|p|]];
    assert q[..|p| + 1] == q';
    if q[|p|] {
      assert q' == p + [true];
    } else {
      assert q' == p + [false];
    }
  }

  // ----- writing through a slot -----

  lemma {:induction false} PutLeaf(k: set<Symbol>, op: Op, t: Expr, p: Path, x: Expr)
    requires IsLeafSlot(op, t, p) && !IsNode(op, x)
    ensures LevelShape(op, Put(op, t, p, x)) == LevelShape(op, t)
    ensures OnLevel(op, Put(op, t, p, x), p) && At(op, Put(op, t, p, x), p) == x
    ensures Size(Put(op, t, p, x)) == Size(t) - Size(At(op, t, p)) + Size(x)
    ensures ConstsIn(k, t) && ConstsIn(k, x) ==> ConstsIn(k, Put(op, t, p, x))
    ensures NotOnSymbols(t) && NotOnSymbols(x) ==> NotOnSymbols(Put(op, t, p, x))
    ensures ConstsIn(k, t) ==> ConstsIn(k, At(op, t, p))
    ensures NotOnSymbols(t) ==> NotOnSymbols(At(op, t, p))
  {
    if p != [] {
      PutLeaf(k, op, if p[0] then t.rhs else t.lhs, p[1..], x);
    }
  }

  /** Writing one operand leaves the others alone. */
  lemma {:induction false} PutElsewhere(op: Op, t: Expr, p: Path, x: Expr, q: Path)
    requires IsLeafSlot(op, t, p) && IsLeafSlot(op, t, q) && p != q && !IsNode(op, x)
    ensures OnLevel(op, Put(op, t, p, x), q) && At(op, Put(op, t, p, x), q) == At(op, t, q)
  {
    if p != [] && p[0] == q[0] {
      assert p == [p[0]] + p[1..] && q == [q[0]] + q[1..];
      PutElsewhere(op, if p[0] then t.rhs else t.lhs, p[1..], x, q[1..]);
    }
  }

  lemma Exchange(op: Op, a: Tri, x: Tri, r: Tri)
    ensures Apply(op, a, Apply(op, x, r)) == Apply(op, x, Apply(op, a, r))
    ensures Apply(op, Apply(op, x, r), a) == Apply(op, x, Apply(op, r, a))
  {
  }

  /** The value of a level is the operand in one slot combined with the rest. */
  lemma {:induction false} SlotValue(op: Op, t: Expr, p: Path, x: Expr, env: Env)
    requires ValidEnv(env) && OnLevel(op, t, p)
    ensures Val(Put(op, t, p, x), env) == Apply(op, Val(x, env), Val(Put(op, t, p, Ident(op)), env))
  {
    if p != [] {
      var child, other := if p[0] then t.rhs else t.lhs, if p[0] then t.lhs else t.rhs;
      SlotValue(op, child, p[1..], x, env);
      Exchange(op, Val(other, env), Val(x, env), Val(Put(op, child, p[1..], Ident(op)), env));
    }
  }

  lemma {:induction false} PutBack(op: Op, t: Expr, p: Path)
    requires OnLevel(op, t, p)
    ensures Put(op, t, p, At(op, t, p)) == t
  {
    if p != [] {
      PutBack(op, if p[0] then t.rhs else t.lhs, p[1..]);
    }
  }

  // ----- a pending elimination -----

  /** Somewhere && has the operand y or || the operand n. */
  predicate HasRedex(e: Expr) {
    e.Bin? && (e.lhs == Ident(e.op) || e.rhs == Ident(e.op) || HasRedex(e.lhs) || HasRedex(e.rhs))
  }

  lemma {:induction false} RedexShrinks(e: Expr)
    requires HasRedex(e)
    ensures Size(EliminateYN(e)) < Size(e)
  {
    if HasRedex(e.lhs) {
      RedexShrinks(e.lhs);
    } else if HasRedex(e.rhs) {
      RedexShrinks(e.rhs);
    }
  }

  lemma {:induction false} RedexAt(op: Op, t: Expr, p: Path)
    requires OnLevel(op, t, p)
    requires HasRedex(At(op, t, p)) || (p != [] && At(op, t, p) == Ident(op))
    ensures HasRedex(t)
  {
    if p != [] {
      RedexAt'(op, t, p);
    }
  }

  lemma {:induction false} RedexAt'(op: Op, t: Expr, p: Path)
    requires OnLevel(op, t, p) && p != []
    requires HasRedex(At(op, t, p)) || At(op, t, p) == Ident(op)
    ensures HasRedex(t)
  {
    if |p| > 1 {
      RedexAt'(op, if p[0] then t.rhs else t.lhs, p[1..]);
    }
  }

  // ----- the pair walk -----

  /** Nothing left to join: no two operands of a level join, and every operand that is a
      level of its own is settled too. */
  ghost predicate Settled(e: Expr)
    decreases Size(e)
  {
    e.Bin? ==> forall q1, q2 :: IsLeafSlot(e.op, e, q1) && IsLeafSlot(e.op, e, q2) && q1 != q2 ==>
      PairSettled(e.op, e, q1, q2)
  }

  ghost predicate PairSettled(op: Op, t: Expr, q1: Path, q2: Path)
    requires IsLeafSlot(op, t, q1) && IsLeafSlot(op, t, q2)
    decreases Size(t), 0
  {
    && Join(op, At(op, t, q1), At(op, t, q2)).None?
    && Size(At(op, t, q1)) < Size(t) && Settled(At(op, t, q1))
  }

  ghost predicate RangeSettled(op: Op, t: Expr, p1: Path, p2: Path) {
    forall q1, q2 :: p1 <= q1 && p2 <= q2 && IsLeafSlot(op, t, q1) && IsLeafSlot(op, t, q2) && q1 != q2 ==>
      PairSettled(op, t, q1, q2)
  }

  /** A range is settled when both halves of its first, or of its second, slot are. */
  lemma RangeHalves(op: Op, t: Expr, p1: Path, p2: Path, first: bool)
    requires OnLevel(op, t, p1) && OnLevel(op, t, p2) && IsNode(op, At(op, t, if first then p1 else p2))
    requires RangeSettled(op, t, if first then p1 + [false] else p1, if first then p2 else p2 + [false])
    requires RangeSettled(op, t, if first then p1 + [true] else p1, if first then p2 else p2 + [true])
    ensures RangeSettled(op, t, p1, p2)
  {
    var p := if first then p1 else p2;
    forall q | p <= q && IsLeafSlot(op, t, q) ensures p + [false] <= q || p + [true] <= q {
      LeafSlotBelow(op, t, p, q);
    }
  }

  /** What one walk over pairs of slots guarantees. */
  ghost predicate Walked(k: set<Symbol>, op: Op, t: Expr, t': Expr, joins: nat, p1: Path, p2: Path) {
    && LevelShape(op, t') == LevelShape(op, t)
    && EquivalentOn(k, t, t')
    && Size(t') <= Size(t)
    && ConstsIn(k, t')
    && (NotOnSymbols(t) ==> NotOnSymbols(t'))
    && (joins > 0 ==> HasRedex(t'))
    && (joins == 0 ==> t' == t && RangeSettled(op, t, p1, p2))
  }

  /** Two walks, over the halves of one slot, make one. */
  lemma WalkedTwice(k: set<Symbol>, op: Op, t: Expr, t1: Expr, t2: Expr, n1: nat, n2: nat, p1: Path, p2: Path, first: bool)
    requires OnLevel(op, t, p1) && OnLevel(op, t, p2) && IsNode(op, At(op, t, if first then p1 else p2))
    requires Walked(k, op, t, t1, n1, if first then p1 + [false] else p1, if first then p2 else p2 + [false])
    requires Walked(k, op, t1, t2, n2, if first then p1 + [true] else p1, if first then p2 else p2 + [true])
    ensures Walked(k, op, t, t2, n1 + n2, p1, p2)
  {
    if n1 + n2 == 0 {
      RangeHalves(op, t, p1, p2, first);
    }
  }

  /** The second half of a walk starts from a tree of the same shape. */
  lemma SecondHalf(op: Op, t: Expr, t1: Expr, p1: Path, p2: Path, first: bool)
    requires OnLevel(op, t, p1) && OnLevel(op, t, p2) && IsNode(op, At(op, t, if first then p1 else p2))
    requires LevelShape(op, t1) == LevelShape(op, t)
    ensures var p := if first then p1 else p2;
            && OnLevel(op, t1, p1) && OnLevel(op, t1, p2)
            && LevelShape(op, At(op, t1, p1)) == LevelShape(op, At(op, t, p1))
            && LevelShape(op, At(op, t1, p2)) == LevelShape(op, At(op, t, p2))
            && OnLevel(op, t1, p + [true]) && At(op, t1, p + [true]) == At(op, t1, p).rhs
  {
    SameSlots(op, t, t1, p1);
    SameSlots(op, t, t1, p2);
    Extend(op, t1, if first then p1 else p2, true);
  }

  /** expr_eliminate_dups1; `joins` is the growth of trans_count. */
  method EliminateDups1(ghost k: set<Symbol>, op: Op, t: Expr, p1: Path, p2: Path) returns (t': Expr, joins: nat)
    requires TriConsts <= k && ConstsIn(k, t) && OnLevel(op, t, p1) && OnLevel(op, t, p2)
    ensures Walked(k, op, t, t', joins, p1, p2)
    decreases Size(t), LevelShape(op, At(op, t, p1)), LevelShape(op, At(op, t, p2))
  {
    var e1, e2 := At(op, t, p1), At(op, t, p2);
    if IsNode(op, e1) {
      t', joins := WalkHalves(k, op, t, p1, p2, true);
    } else if IsNode(op, e2) {
      t', joins := WalkHalves(k, op, t, p1, p2, false);
    } else if p1 == p2 {
      t', joins := t, 0;
      SlotAlone(op, t, p1);
    } else {
      t', joins := ComparePair(k, op, t, p1, p2);
    }
  }

  /** The two calls of expr.c:596-605 for a slot that holds a node of the level. */
  method WalkHalves(ghost k: set<Symbol>, op: Op, t: Expr, p1: Path, p2: Path, first: bool) returns (t': Expr, joins: nat)
    requires TriConsts <= k && ConstsIn(k, t) && OnLevel(op, t, p1) && OnLevel(op, t, p2)
    requires IsNode(op, At(op, t, if first then p1 else p2))
    ensures Walked(k, op, t, t', joins, p1, p2)
    decreases Size(t), LevelShape(op, At(op, t, p1)), LevelShape(op, At(op, t, p2)), 0
  {
    Extend(op, t, if first then p1 else p2, false);
    var t1, n1 := EliminateDups1(k, op, t, if first then p1 + [false] else p1, if first then p2 else p2 + [false]);
    SecondHalf(op, t, t1, p1, p2, first);
    var t2, n2 := EliminateDups1(k, op, t1, if first then p1 + [true] else p1, if first then p2 else p2 + [true]);
    WalkedTwice(k, op, t, t1, t2, n1, n2, p1, p2, first);
    t', joins := t2, n1 + n2;
  }

  lemma SlotAlone(op: Op, t: Expr, p: Path)
    requires IsLeafSlot(op, t, p)
    ensures RangeSettled(op, t, p, p)
  {
    forall q | p <= q && IsLeafSlot(op, t, q) ensures q == p {
      LeafSlotEnds(op, t, p, q);
    }
  }

  /** Rewriting one operand to an equivalent one. */
  lemma OperandRewritten(k: set<Symbol>, op: Op, t: Expr, p: Path, x: Expr)
    requires IsLeafSlot(op, t, p) && EquivalentOn(k, At(op, t, p), x)
    ensures EquivalentOn(k, t, Put(op, t, p, x))
  {
    forall env: Env | ValidEnv(env) && Apart(k, env) ensures Val(t, env) == Val(Put(op, t, p, x), env) {
      PutBack(op, t, p);
      SlotValue(op, t, p, At(op, t, p), env);
      SlotValue(op, t, p, x, env);
    }
  }

  /** The tree with the join of two operands in the second slot and nothing in the first. */
  function Joined(op: Op, t: Expr, p1: Path, p2: Path, j: Expr): Expr
    requires IsLeafSlot(op, t, p1) && IsLeafSlot(op, t, p2) && p1 != p2
  {
    PutElsewhere(op, t, p1, Ident(op), p2);
    Put(op, Put(op, t, p1, Ident(op)), p2, j)
  }

  lemma JoinedKeepsValue(op: Op, t: Expr, p1: Path, p2: Path, j: Expr, env: Env)
    requires ValidEnv(env) && IsLeafSlot(op, t, p1) && IsLeafSlot(op, t, p2) && p1 != p2
    requires Val(j, env) == Apply(op, Val(At(op, t, p1), env), Val(At(op, t, p2), env))
    ensures Val(Joined(op, t, p1, p2, j), env) == Val(t, env)
  {
    var u := Put(op, t, p1, Ident(op));
    PutElsewhere(op, t, p1, Ident(op), p2);
    SlotValue(op, u, p2, j, env);
    SlotValue(op, u, p2, At(op, u, p2), env);
    PutBack(op, u, p2);
    SlotValue(op, t, p1, At(op, t, p1), env);
    PutBack(op, t, p1);
  }

  lemma JoinKeepsShape(k: set<Symbol>, op: Op, e1: Expr, e2: Expr)
    requires TriConsts <= k && Join(op, e1, e2).Some?
    ensures var j := Join(op, e1, e2).value;
            && Size(j) <= Size(e1)
            && (j.Bin? ==> j == e1)
            && (ConstsIn(k, e1) && ConstsIn(k, e2) ==> ConstsIn(k, j))
            && (NotOnSymbols(e1) ==> NotOnSymbols(j))
  {
    JoinShape(op, e1, e2);
  }

  lemma JoinedEquivalent(k: set<Symbol>, op: Op, t: Expr, p1: Path, p2: Path, j: Expr)
    requires TriConsts <= k && ConstsIn(k, t) && IsLeafSlot(op, t, p1) && IsLeafSlot(op, t, p2) && p1 != p2
    requires Join(op, At(op, t, p1), At(op, t, p2)) == Some(j)
    ensures EquivalentOn(k, t, Joined(op, t, p1, p2, j))
  {
    var e1, e2 := At(op, t, p1), At(op, t, p2);
    PutLeaf(k, op, t, p1, Ident(op));
    PutLeaf(k, op, t, p2, Ident(op));
    forall env: Env | ValidEnv(env) && Apart(k, env) ensures Val(t, env) == Val(Joined(op, t, p1, p2, j), env) {
      JoinSound(k, op, e1, e2, env);
      JoinedKeepsValue(op, t, p1, p2, j, env);
    }
  }

  lemma JoinedWalked(k: set<Symbol>, op: Op, t: Expr, p1: Path, p2: Path, j: Expr, joins: nat)
    requires TriConsts <= k && ConstsIn(k, t) && IsLeafSlot(op, t, p1) && IsLeafSlot(op, t, p2) && p1 != p2
    requires Join(op, At(op, t, p1), At(op, t, p2)) == Some(j) && joins > 0
    ensures Walked(k, op, t, Joined(op, t, p1, p2, j), joins, p1, p2)
  {
    var u := Put(op, t, p1, Ident(op));
    JoinKeepsShape(k, op, At(op, t, p1), At(op, t, p2));
    PutLeaf(k, op, t, p1, Ident(op));
    PutLeaf(k, op, t, p2, Ident(op));
    PutElsewhere(op, t, p1, Ident(op), p2);
    PutLeaf(k, op, u, p2, j);
    PutElsewhere(op, u, p2, j, p1);
    RedexAt(op, Joined(op, t, p1, p2, j), p1);
    JoinedEquivalent(k, op, t, p1, p2, j);
  }

  /** The two operands in different slots (expr.c:607-640). */
  method ComparePair(ghost k: set<Symbol>, op: Op, t: Expr, p1: Path, p2: Path) returns (t': Expr, joins: nat)
    requires TriConsts <= k && ConstsIn(k, t) && IsLeafSlot(op, t, p1) && IsLeafSlot(op, t, p2) && p1 != p2
    ensures Walked(k, op, t, t', joins, p1, p2)
    decreases Size(t), Leaf, Leaf, 1
  {
    t', joins := t, 0;
    SlotSize(op, t, p1);
    ghost var e1 := At(op, t, p1);
    PutLeaf(k, op, t, p1, e1);
    if At(op, t, p1).Bin? {
      t', joins := RewriteOperand(k, op, t, p1, p2);
    }
    SameSlots(op, t, t', p1);
    SameSlots(op, t, t', p2);
    var j := Join(op, At(op, t', p1), At(op, t', p2));
    if j.Some? {
      JoinedWalked(k, op, t', p1, p2, j.value, joins + 1);
      t', joins := Joined(op, t', p1, p2, j.value), joins + 1;
    } else if joins == 0 {
      forall q1, q2 | p1 <= q1 && p2 <= q2 && IsLeafSlot(op, t, q1) && IsLeafSlot(op, t, q2)
        ensures q1 == p1 && q2 == p2
      {
        LeafSlotEnds(op, t, p1, q1);
        LeafSlotEnds(op, t, p2, q2);
      }
    }
  }

  /** The nested walk over an operand that is a level of the other type (expr.c:612-617). */
  method RewriteOperand(ghost k: set<Symbol>, op: Op, t: Expr, p1: Path, ghost p2: Path) returns (t': Expr, joins: nat)
    requires TriConsts <= k && ConstsIn(k, t) && IsLeafSlot(op, t, p1) && IsLeafSlot(op, t, p2) && p1 != p2
    requires At(op, t, p1).Bin?
    ensures LevelShape(op, t') == LevelShape(op, t) && EquivalentOn(k, t, t') && Size(t') <= Size(t)
    ensures ConstsIn(k, t') && (NotOnSymbols(t) ==> NotOnSymbols(t'))
    ensures joins > 0 ==> HasRedex(t')
    ensures joins == 0 ==> t' == t && Settled(At(op, t, p1))
    decreases Size(t), Leaf, Leaf, 0
  {
    var e1 := At(op, t, p1);
    SlotSize(op, t, p1);
    PutLeaf(k, op, t, p1, e1);
    var x, n := EliminateDups1(k, e1.op, e1, [], []);
    assert !IsNode(op, x) by {
      assert IsNode(e1.op, x);
    }
    t', joins := Put(op, t, p1, x), n;
    PutLeaf(k, op, t, p1, x);
    OperandRewritten(k, op, t, p1, x);
    PutBack(op, t, p1);
    if joins > 0 {
      RedexAt(op, t', p1);
    } else {
      assert Settled(e1);
    }
  }

  // ----- expr_eliminate_dups -----

  /** expr_eliminate_dups: passes of the pair walk, each followed by the elimination of
      constants, until a pass joins nothing. The value stays under every assignment that keeps
      the constants of `k` apart, those with which tristate symbols are compared; for y, m and n
      that is every assignment. */
  method EliminateDups(ghost k: set<Symbol>, e: Expr) returns (e': Expr)
    requires TriConsts <= k && ConstsIn(k, e)
    ensures EquivalentOn(k, e, e') && (k == TriConsts ==> Equivalent(e, e'))
    ensures Settled(e')
    ensures Size(e') <= Size(e) && ConstsIn(k, e')
    ensures NotOnSymbols(e) ==> NotOnSymbols(e')
  {
    e' := EliminateAll(k, e);
    if k == TriConsts {
      PlainlyEquivalent(e, e');
    }
  }

  /** The loop. */
  method EliminateAll(ghost k: set<Symbol>, e: Expr) returns (e': Expr)
    requires TriConsts <= k && ConstsIn(k, e)
    ensures EquivalentOn(k, e, e')
    ensures Settled(e')
    ensures Size(e') <= Size(e) && ConstsIn(k, e')
    ensures NotOnSymbols(e) ==> NotOnSymbols(e')
  {
    e' := e;
    while true
      invariant EquivalentOn(k, e, e')
      invariant Size(e') <= Size(e) && ConstsIn(k, e')
      invariant NotOnSymbols(e) ==> NotOnSymbols(e')
      decreases Size(e')
    {
      if !e'.Bin? {
        return;
      }
      var t, joins := EliminateDups1(k, e'.op, e', [], []);
      if joins == 0 {
        return;
      }
      RedexShrinks(t);
      EliminateYNKeepsShape(k, t);
      forall env: Env | ValidEnv(env) && Apart(k, env) ensures Val(EliminateYN(t), env) == Val(e, env) {
        EliminateYNKeepsValue(t, env);
      }
      e' := EliminateYN(t);
    }
  }

  /** expr_eliminate_dups on any expression: the value stays wherever y, m, n and the constants
      that the expression itself compares tristate symbols with are kept apart, and everywhere if
      it compares them with y, m and n only. */
  method EliminateDupsAnywhere(e: Expr) returns (e': Expr)
    ensures EquivalentOn(TriConsts + ConstsOf(e), e, e') && (ConstsOf(e) <= TriConsts ==> Equivalent(e, e'))
    ensures Settled(e') && Size(e') <= Size(e) && ConstsOf(e') <= TriConsts + ConstsOf(e)
    ensures NotOnSymbols(e) ==> NotOnSymbols(e')
  {
    ghost var k := TriConsts + ConstsOf(e);
    ConstsOfLeast(k, e);
    e' := EliminateDups(k, e);
    ConstsOfLeast(k, e');
    assert ConstsOf(e) <= TriConsts ==> k == TriConsts;
  }
}
