/** Constants other than y, m and n in the rule of expr_join_and for an equality and an inequality
    (kconf/expr.c:531-545). */
module KconfigConsts {
  import opened Common
  import opened KconfigExpr
  import opened KconfigTransform
  import opened KconfigDups

  /** An assignment of the value `t` to the tristate symbol `a`, with the same texts. */
  lemma Assigning(a: Symbol, t: Tri, env: Env) returns (env': Env)
    requires ValidEnv(env) && a.typ == Tristate
    ensures ValidEnv(env') && env'.val == env.val && env'.number == env.number && env'.tri(a) == t
  {
    env' := Env(s => if s == a then t else if s == SymYes then YES else if s == SymMod then MOD else NO,
                env.val, SymYes, env.number);
  }

  ghost predicate SameTexts(env: Env, env': Env) {
    env'.val == env.val && env'.number == env.number
  }

  function Both(b: Symbol, c: Symbol): set<Symbol> {
    {b, c}
  }

  lemma MatchesReadsTexts(c: Symbol, t: Tri, env: Env, env': Env)
    requires SameTexts(env, env') && c.typ != Boolean && c.typ != Tristate
    ensures Matches(c, t, env') == Matches(c, t, env)
  {
  }

  /** The rule (a='b') && (a!='c') -> (a='b') for two different constants keeps the value, for
      every assignment, if and only if no value compares equal to both. */
  lemma JoinExactIff(a: Symbol, b: Symbol, c: Symbol, env: Env)
    requires ValidEnv(env) && a.typ == Tristate && b != c
    requires b.isConst && b.typ == Unknown && c.isConst && c.typ == Unknown
    ensures JoinAnd(Cmp(Equal, a, b), Cmp(Unequal, a, c)) == Some(Cmp(Equal, a, b))
    ensures (forall env' | ValidEnv(env') && SameTexts(env, env') ::
               Val(Cmp(Equal, a, b), env') == Apply(AndOp, Val(Cmp(Equal, a, b), env'), Val(Cmp(Unequal, a, c), env')))
            <==> Apart(Both(b, c), env)
  {
    forall env' | ValidEnv(env') && SameTexts(env, env')
      ensures Val(Cmp(Equal, a, b), env') == FromBool(Matches(b, env'.tri(a), env))
      ensures Val(Cmp(Unequal, a, c), env') == FromBool(!Matches(c, env'.tri(a), env))
    {
      CompareMatches(a, b, env');
      CompareMatches(a, c, env');
      MatchesReadsTexts(b, env'.tri(a), env, env');
      MatchesReadsTexts(c, env'.tri(a), env, env');
    }
    if !Apart(Both(b, c), env) {
      var t :| Matches(b, t, env) && Matches(c, t, env);
      var env' := Assigning(a, t, env);
      assert SameTexts(env, env');
    }
  }

  /** That case occurs: a tristate symbol compared with "0" and with n. */
  lemma NumericConstantBreaksJoin() returns (e1: Expr, e2: Expr, env: Env)
    ensures ValidEnv(env) && JoinAnd(e1, e2).Some?
    ensures Val(JoinAnd(e1, e2).value, env) == YES && Apply(AndOp, Val(e1, env), Val(e2, env)) == NO
  {
    var a, zero := Symbol(3, Tristate, false), Symbol(4, Unknown, true);
    e1, e2 := Cmp(Equal, a, zero), Cmp(Unequal, a, SymNo);
    env := Env(s => if s == SymYes then YES else if s == SymMod then MOD else NO,
               s => if s == SymYes then "y" else if s == SymMod then "m" else if s == SymNo then "n" else "0",
               SymYes, (text, base) => if text == "0" then Some(0) else None);
    CompareMatches(a, zero, env);
    CompareMatches(a, SymNo, env);
  }
}
