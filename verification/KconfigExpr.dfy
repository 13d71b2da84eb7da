/** Dependency expressions of the Kconfig language (kconf/expr.h, kconf/expr.c) and their
    three-valued meaning. */
module KconfigExpr {
  import opened Common

  // ----- tristate logic (expr.h:27-29, 47-49) -----

  /** n < m < y. */
  type Tri = t: int | 0 <= t <= 2
  const NO: Tri := 0
  const MOD: Tri := 1
  const YES: Tri := 2

  datatype Op = AndOp | OrOp

  function Apply(op: Op, a: Tri, b: Tri): Tri {
    match op
    case AndOp => if a < b then a else b
    case OrOp => if a > b then a else b
  }

  function Negate(a: Tri): Tri {
    2 - a
  }

  // ----- symbols and expressions -----

  datatype SymType = Unknown | Boolean | Tristate | Int | Hex | String | Other

  /** A symbol; `id` stands for its address, so equal symbols are the same object. */
  datatype Symbol = Symbol(id: nat, typ: SymType, isConst: bool)

  const SymYes := Symbol(0, Unknown, true)
  const SymMod := Symbol(1, Unknown, true)
  const SymNo := Symbol(2, Unknown, true)

  datatype Rel = Equal | Unequal | Lth | Leq | Gth | Geq

  datatype Expr =
    | Sym(sym: Symbol)
    | Cmp(rel: Rel, left: Symbol, right: Symbol)
    | Not(arg: Expr)
    | Bin(op: Op, lhs: Expr, rhs: Expr)

  /** The constant that leaves the other operand of `op` unchanged: y for &&, n for ||. */
  function Ident(op: Op): Expr {
    if op.AndOp? then Sym(SymYes) else Sym(SymNo)
  }

  function Flip(op: Op): Op {
    if op.AndOp? then OrOp else AndOp
  }

  function Size(e: Expr): (n: nat)
    ensures n >= 1
  {
    match e
    case Sym(_) => 1
    case Cmp(_, _, _) => 1
    case Not(a) => 1 + Size(a)
    case Bin(_, l, r) => 1 + Size(l) + Size(r)
  }

  // ----- assignments -----

  /** One assignment of values to all symbols: `tri` and `val` are the two halves of
      `curr`, `modules` is the MODULES symbol, and `number(s, b)` is what the C library's
      strtoll/strtoull make of the whole of `s` in base `b` (None when `s` is not entirely
      a number). */
  datatype Env = Env(tri: Symbol -> Tri, val: Symbol -> string, modules: Symbol,
                     number: (string, nat) -> Option<int>)

  /** What sym_calc_value guarantees of every assignment: the three constants have their
      own values, a bool is never m, and no tristate is m while MODULES is n. */
  ghost predicate ValidEnv(env: Env) {
    && env.tri(SymYes) == YES && env.val(SymYes) == "y"
    && env.tri(SymMod) == MOD && env.val(SymMod) == "m"
    && env.tri(SymNo) == NO && env.val(SymNo) == "n"
    && env.number("y", 0).None? && env.number("m", 0).None? && env.number("n", 0).None?
    && (forall s: Symbol :: s.typ == Boolean ==> env.tri(s) != MOD)
    && (forall s: Symbol :: s.typ == Tristate && env.tri(env.modules) == NO ==> env.tri(s) != MOD)
  }

  /** sym_get_string_value (symbol.c:803-825). */
  function StringValue(s: Symbol, env: Env): string {
    if s.typ == Boolean || s.typ == Tristate then
      if env.tri(s) == NO then "n"
      else if env.tri(s) == MOD then (if env.tri(env.modules) == NO then "n" else "m")
      else "y"
    else
      env.val(s)
  }

  datatype Parsed = KString | KSigned(s: int) | KUnsigned(u: int) | KInvalid

  /** expr_parse_string (expr.c:991-1024). */
  function ParseString(str: string, typ: SymType, env: Env): Parsed {
    match typ
    case Boolean => KSigned(TriIndex(str))
    case Tristate => KSigned(TriIndex(str))
    case Int => (match env.number(str, 10) case Some(v) => KSigned(v) case None => KString)
    case Hex => (match env.number(str, 16) case Some(v) => KUnsigned(v) case None => KString)
    case String => (match env.number(str, 0) case Some(v) => KSigned(v) case None => KString)
    case Unknown => (match env.number(str, 0) case Some(v) => KSigned(v) case None => KString)
    case Other => KInvalid
  }

  function TriIndex(str: string): int {
    if str == "n" then 0 else if str == "m" then 1 else if str == "y" then 2 else -1
  }

  const TWO64 := 0x1_0000_0000_0000_0000

  /** The unsigned reading of the 64-bit union member. */
  function AsUnsigned(p: Parsed): int
    requires p.KSigned? || p.KUnsigned?
  {
    (if p.KSigned? then p.s else p.u) % TWO64
  }

  function Sign(a: int, b: int): int {
    if a > b then 1 else if a < b then -1 else 0
  }

  function StrCmp(a: string, b: string): (r: int)
    ensures r == 0 <==> a == b
  {
    if a == [] || b == [] then Sign(|a|, |b|)
    else if a[0] != b[0] then Sign(a[0] as int, b[0] as int)
    else
      assert a == b <==> a[1..] == b[1..] by {
        assert a == [a[0]] + a[1..] && b == [b[0]] + b[1..];
      }
      StrCmp(a[1..], b[1..])
  }

  /** The three-way comparison at expr.c:1064-1085; None where the operands cannot be ordered. */
  function Order(l: Symbol, r: Symbol, env: Env): Option<int> {
    var str1, str2 := StringValue(l, env), StringValue(r, env);
    var both := l.typ == String && r.typ == String;
    var k1 := if both then KString else ParseString(str1, l.typ, env);
    var k2 := if both then KString else ParseString(str2, r.typ, env);
    if k1.KString? || k2.KString? then Some(StrCmp(str1, str2))
    else if k1.KInvalid? || k2.KInvalid? then None
    else if k1.KUnsigned? || k2.KUnsigned? then Some(Sign(AsUnsigned(k1), AsUnsigned(k2)))
    else Some(Sign(k1.s, k2.s))
  }

  function FromBool(b: bool): Tri {
    if b then YES else NO
  }

  function Compare(rel: Rel, l: Symbol, r: Symbol, env: Env): Tri {
    var o := Order(l, r, env);
    if o.None? && rel != Equal && rel != Unequal then NO
    else
      var res := if o.None? then StrCmp(StringValue(l, env), StringValue(r, env)) else o.value;
      match rel
      case Equal => FromBool(res == 0)
      case Unequal => FromBool(res != 0)
      case Geq => FromBool(res >= 0)
      case Gth => FromBool(res > 0)
      case Leq => FromBool(res <= 0)
      case Lth => FromBool(res < 0)
  }

  /** expr_calc_value (expr.c:1026-1104): the meaning every rewrite has to keep. */
  function Val(e: Expr, env: Env): Tri {
    match e
    case Sym(s) => env.tri(s)
    case Cmp(rel, l, r) => Compare(rel, l, r, env)
    case Not(a) => Negate(Val(a, env))
    case Bin(op, l, r) => Apply(op, Val(l, env), Val(r, env))
  }

  /** A missing expression (a null pointer) reads as y. */
  function OptVal(e: Option<Expr>, env: Env): Tri {
    if e.None? then YES else Val(e.value, env)
  }

  /** Two expressions with the same value under every assignment. */
  ghost predicate Equivalent(a: Expr, b: Expr) {
    forall env: Env :: ValidEnv(env) ==> Val(a, env) == Val(b, env)
  }

  // ----- well-formedness -----

  predicate IsTriConst(s: Symbol) {
    s == SymYes || s == SymMod || s == SymNo
  }

  /** No operand of an ordering has the type that cannot be ordered. */
  predicate Ordered(e: Expr) {
    match e
    case Sym(_) => true
    case Cmp(rel, l, r) => rel == Equal || rel == Unequal || (l.typ != Other && r.typ != Other)
    case Not(a) => Ordered(a)
    case Bin(_, l, r) => Ordered(l) && Ordered(r)
  }

  const TriConsts: set<Symbol> := {SymYes, SymMod, SymNo}

  /** The constants compared for equality with a tristate symbol are among `k`. */
  predicate ConstsIn(k: set<Symbol>, e: Expr) {
    match e
    case Sym(_) => true
    case Cmp(rel, l, r) =>
      (rel == Equal || rel == Unequal) && l.typ == Tristate && r.isConst ==> r in k
    case Not(a) => ConstsIn(k, a)
    case Bin(_, l, r) => ConstsIn(k, l) && ConstsIn(k, r)
  }

  /** The constants compared for equality with a tristate symbol. */
  function ConstsOf(e: Expr): set<Symbol> {
    match e
    case Sym(_) => {}
    case Cmp(rel, l, r) => if (rel == Equal || rel == Unequal) && l.typ == Tristate && r.isConst then {r} else {}
    case Not(a) => ConstsOf(a)
    case Bin(_, l, r) => ConstsOf(l) + ConstsOf(r)
  }

  lemma {:induction false} ConstsOfLeast(k: set<Symbol>, e: Expr)
    ensures ConstsIn(k, e) <==> ConstsOf(e) <= k
  {
    match e
    case Not(a) => ConstsOfLeast(k, a);
    case Bin(_, l, r) =>
      ConstsOfLeast(k, l);
      ConstsOfLeast(k, r);
    case _ =>
  }

  /** Negation only directly above symbols. */
  predicate NotOnSymbols(e: Expr) {
    match e
    case Not(a) => a.Sym?
    case Bin(_, l, r) => NotOnSymbols(l) && NotOnSymbols(r)
    case _ => true
  }

  // ----- comparison with a constant -----

  function TriText(t: Tri): string {
    if t == NO then "n" else if t == MOD then "m" else "y"
  }

  /** What a relation says of two numbers. */
  predicate Holds(rel: Rel, a: int, b: int) {
    match rel
    case Equal => a == b
    case Unequal => a != b
    case Lth => a < b
    case Leq => a <= b
    case Gth => b < a
    case Geq => b <= a
  }

  /** Int symbols compare as the numbers they hold, and so do hex symbols. */
  lemma CompareNumbers(rel: Rel, l: Symbol, r: Symbol, env: Env, a: int, b: int)
    requires (l.typ == Int && r.typ == Int && env.number(env.val(l), 10) == Some(a) && env.number(env.val(r), 10) == Some(b)) ||
             (l.typ == Hex && r.typ == Hex && env.number(env.val(l), 16) == Some(a) && env.number(env.val(r), 16) == Some(b) &&
              0 <= a < TWO64 && 0 <= b < TWO64)
    ensures Compare(rel, l, r, env) == FromBool(Holds(rel, a, b))
  {
    assert l.typ == Hex ==> a % TWO64 == a && b % TWO64 == b;
  }

  /** Bool and tristate symbols compare in the order n, m, y. */
  lemma CompareTristates(rel: Rel, l: Symbol, r: Symbol, env: Env)
    requires ValidEnv(env) && (l.typ == Boolean || l.typ == Tristate) && (r.typ == Boolean || r.typ == Tristate)
    ensures Compare(rel, l, r, env) == FromBool(Holds(rel, env.tri(l), env.tri(r)))
  {
    TriParses(l, env);
    TriParses(r, env);
  }

  lemma TriParses(s: Symbol, env: Env)
    requires ValidEnv(env) && (s.typ == Boolean || s.typ == Tristate)
    ensures ParseString(StringValue(s, env), s.typ, env) == KSigned(env.tri(s))
  {
    assert env.tri(s) == MOD ==> env.tri(env.modules) != NO;
    assert StringValue(s, env) == TriText(env.tri(s));
  }

  /** `a` comes before `b` in the order of their characters, `k` being the first place where they
      differ or one of them ends. */
  predicate Earlier(a: string, b: string, k: nat) {
    k <= |a| && k <= |b| && a[..k] == b[..k] && if k < |a| && k < |b| then a[k] < b[k] else |a| < |b| && k == |a|
  }

  lemma {:induction false} StrCmpOrders(a: string, b: string)
    ensures StrCmp(a, b) < 0 <==> exists k :: Earlier(a, b, k)
    ensures StrCmp(a, b) > 0 <==> exists k :: Earlier(b, a, k)
  {
    if a == [] || b == [] {
      assert a == [] && b != [] ==> Earlier(a, b, 0);
      assert b == [] && a != [] ==> Earlier(b, a, 0);
    } else if a[0] != b[0] {
      assert a[0] < b[0] ==> Earlier(a, b, 0);
      assert b[0] < a[0] ==> Earlier(b, a, 0);
      forall k: nat | 0 < k <= |a| && k <= |b| ensures a[..k] != b[..k] {
        assert a[..k][0] != b[..k][0];
      }
    } else {
      StrCmpOrders(a[1..], b[1..]);
      EarlierTail(a, b);
      EarlierTail(b, a);
    }
  }

  lemma EarlierTail(a: string, b: string)
    requires a != [] && b != [] && a[0] == b[0]
    ensures (exists k :: Earlier(a, b, k)) <==> exists k :: Earlier(a[1..], b[1..], k)
  {
    if k: nat :| Earlier(a, b, k) {
      assert k > 0 && a[1..][..k - 1] == a[..k][1..] && b[1..][..k - 1] == b[..k][1..];
      assert Earlier(a[1..], b[1..], k - 1);
    }
    if k: nat :| Earlier(a[1..], b[1..], k) {
      assert a[..k + 1] == [a[0]] + a[1..][..k] && b[..k + 1] == [b[0]] + b[1..][..k];
      assert Earlier(a, b, k + 1);
    }
  }

  /** String symbols compare in the order of their characters. */
  lemma CompareTexts(l: Symbol, r: Symbol, env: Env)
    requires l.typ == String && r.typ == String
    ensures var a, b := env.val(l), env.val(r);
            && (Compare(Equal, l, r, env) == FromBool(a == b))
            && (Compare(Lth, l, r, env) == FromBool(exists k :: Earlier(a, b, k)))
            && (Compare(Gth, l, r, env) == FromBool(exists k :: Earlier(b, a, k)))
            && (Compare(Leq, l, r, env) == FromBool(a == b || exists k :: Earlier(a, b, k)))
            && (Compare(Geq, l, r, env) == FromBool(a == b || exists k :: Earlier(b, a, k)))
  {
    StrCmpOrders(env.val(l), env.val(r));
  }

  /** A bool or tristate symbol of the value `t` compares equal to `c`. */
  predicate Matches(c: Symbol, t: Tri, env: Env) {
    var text := StringValue(c, env);
    var parsed := ParseString(text, c.typ, env);
    if parsed.KString? || parsed.KInvalid? then TriText(t) == text
    else if parsed.KUnsigned? then t == parsed.u % TWO64
    else t == parsed.s
  }

  lemma CompareMatches(s: Symbol, c: Symbol, env: Env)
    requires ValidEnv(env) && (s.typ == Boolean || s.typ == Tristate)
    ensures Compare(Equal, s, c, env) == FromBool(Matches(c, env.tri(s), env))
    ensures Compare(Unequal, s, c, env) == FromBool(!Matches(c, env.tri(s), env))
  {
    assert env.tri(s) == MOD ==> env.tri(env.modules) != NO;
    assert StringValue(s, env) == TriText(env.tri(s));
    assert ParseString(StringValue(s, env), s.typ, env) == KSigned(env.tri(s));
  }

  /** Comparing a bool or tristate symbol with y, m or n tests its three-valued value. */
  lemma CompareWithConst(s: Symbol, c: Symbol, env: Env)
    requires ValidEnv(env) && IsTriConst(c)
    requires s.typ == Boolean || s.typ == Tristate
    ensures Compare(Equal, s, c, env) == FromBool(env.tri(s) == env.tri(c))
    ensures Compare(Unequal, s, c, env) == FromBool(env.tri(s) != env.tri(c))
  {
    CompareMatches(s, c, env);
    TriConstMatches(c, env.tri(s), env);
  }

  lemma TriConstMatches(c: Symbol, t: Tri, env: Env)
    requires ValidEnv(env) && IsTriConst(c)
    ensures Matches(c, t, env) <==> env.tri(c) == t
  {
    assert StringValue(c, env) == env.val(c);
    assert ParseString(env.val(c), c.typ, env).KString?;
  }

  /** No value of a tristate symbol compares equal to two of the constants. */
  ghost predicate Apart(k: set<Symbol>, env: Env) {
    forall b, c, t :: b in k && c in k && b != c && Matches(b, t, env) ==> !Matches(c, t, env)
  }

  /** The constants y, m and n are always apart. */
  lemma TriConstsApart(env: Env)
    requires ValidEnv(env)
    ensures Apart(TriConsts, env)
  {
    forall b, c, t | b in TriConsts && c in TriConsts && b != c && Matches(b, t, env) ensures !Matches(c, t, env) {
      TriConstMatches(b, t, env);
      TriConstMatches(c, t, env);
    }
  }

  /** The same value under every assignment that keeps the constants of `k` apart. */
  ghost predicate EquivalentOn(k: set<Symbol>, a: Expr, b: Expr) {
    forall env: Env :: ValidEnv(env) && Apart(k, env) ==> Val(a, env) == Val(b, env)
  }

  lemma PlainlyEquivalent(a: Expr, b: Expr)
    ensures EquivalentOn(TriConsts, a, b) <==> Equivalent(a, b)
  {
    forall env: Env | ValidEnv(env) ensures Apart(TriConsts, env) {
      TriConstsApart(env);
    }
  }
}
