/** Propagation of dependencies from a menu node to its children, their properties and the
    symbols they select or imply, by the loops of menu_finalize (kconf/menu.c:343-413). */
module KconfigPropagate {
  import opened Common
  import opened KconfigExpr
  import opened KconfigEq
  import opened KconfigTransform
  import opened KconfigDups

  // ----- one expression -----

  /** expr_alloc_and. */
  function AllocAnd(a: Option<Expr>, b: Option<Expr>): (r: Option<Expr>)
    ensures forall env :: OptVal(r, env) == Apply(AndOp, OptVal(a, env), OptVal(b, env))
  {
    if a.None? then b else if b.None? then a else Some(Bin(AndOp, a.value, b.value))
  }

  /** The value with m read as m && MODULES. */
  ghost function OptValM(e: Option<Expr>, env: Env): Tri {
    if e.None? then YES else ValM(e.value, env)
  }

  ghost predicate OptConstsIn(k: set<Symbol>, e: Option<Expr>) {
    e.Some? ==> ConstsIn(k, e.value)
  }

  ghost predicate OptComparable(e: Option<Expr>, env: Env) {
    e.Some? ==> Comparable(e.value, env)
  }

  ghost predicate Normalised(e: Option<Expr>) {
    e.Some? ==> NotOnSymbols(e.value)
  }

  /** The assignments a level is about: the constants compared with tristate symbols are kept
      apart, and MODULES is the symbol in force. */
  ghost predicate Allowed(k: set<Symbol>, modules: Symbol, env: Env) {
    ValidEnv(env) && Apart(k, env) && env.modules == modules
  }

  /** rewrite_m followed by expr_transform. */
  function Normalise(e: Option<Expr>, modules: Symbol): Option<Expr> {
    if e.None? then None else Some(Transform(RewriteM(e.value, modules)))
  }

  lemma NormaliseShape(k: set<Symbol>, e: Option<Expr>, modules: Symbol)
    requires OptConstsIn(k, e)
    ensures OptConstsIn(k, Normalise(e, modules)) && Normalised(Normalise(e, modules))
  {
    if e.Some? {
      var r := RewriteM(e.value, modules);
      RewriteMKeepsConsts(k, e.value, modules);
      TransformKeepsConsts(k, r);
      TransformNormalises(r);
      NormalNotOnSymbols(Transform(r));
    }
  }

  lemma NormaliseReads(e: Option<Expr>, env: Env)
    requires ValidEnv(env) && OptComparable(e, env)
    ensures OptVal(Normalise(e, env.modules), env) == OptValM(e, env)
  {
    if e.Some? {
      RewriteMKeepsComparable(e.value, env.modules, env);
      RewriteMReads(e.value, env);
      TransformKeepsValue(RewriteM(e.value, env.modules), env);
    }
  }

  /** `dep` is the smaller of `base` and `own`, with m read as m && MODULES in `own`. */
  ghost predicate Bounded(k: set<Symbol>, modules: Symbol, base: Option<Expr>, own: Option<Expr>, dep: Option<Expr>) {
    forall env :: Allowed(k, modules, env) && OptComparable(own, env) ==>
      OptVal(dep, env) == Apply(AndOp, OptVal(base, env), OptValM(own, env))
  }

  /** A child's dependency, or a property's condition, under the dependency `base` of what
      encloses it (menu.c:348-352 and 392-395). */
  method Propagate(ghost k: set<Symbol>, base: Option<Expr>, own: Option<Expr>, modules: Symbol) returns (dep: Option<Expr>)
    requires TriConsts <= k && OptConstsIn(k, base) && OptConstsIn(k, own)
    ensures Bounded(k, modules, base, own, dep)
    ensures OptConstsIn(k, dep) && (Normalised(base) ==> Normalised(dep))
    ensures dep.Some? ==> Settled(dep.value)
  {
    NormaliseShape(k, own, modules);
    dep := AllocAnd(base, Normalise(own, modules));
    ghost var joined := dep;
    if dep.Some? {
      var e := EliminateDups(k, dep.value);
      dep := Some(e);
    }
    forall env | Allowed(k, modules, env) && OptComparable(own, env)
      ensures OptVal(dep, env) == Apply(AndOp, OptVal(base, env), OptValM(own, env))
    {
      NormaliseReads(own, env);
      assert OptVal(dep, env) == OptVal(joined, env);
    }
  }

  // ----- reverse dependencies -----

  /** What a property is; `Select` and `Imply` name the symbol they act on. */
  datatype PropKind = Prompt | Select(target: Symbol) | Imply(target: Symbol) | OtherProp

  /** A property of a symbol or the prompt of another menu node; `here` says that it belongs to
      this menu node and not to another one of the same symbol. */
  datatype Property = Property(kind: PropKind, here: bool, cond: Option<Expr>)

  datatype Child = Child(sym: Option<Symbol>, dep: Option<Expr>, props: seq<Property>)

  /** rev_dep.expr and implied.expr of the symbols, by the kind of property that adds to them; a
      missing expression reads as n here. */
  type RevDeps = map<PropKind, Expr>

  function RevVal(rev: RevDeps, kind: PropKind, env: Env): Tri {
    if kind in rev then Val(rev[kind], env) else NO
  }

  /** What may be asked of the properties of a tree: how far a symbol is selected or implied, and
      how far its prompts are visible. */
  datatype Query = Pulls(kind: PropKind) | Prompts(s: Symbol)

  predicate Asks(q: Query, sym: Option<Symbol>, p: Property) {
    p.here && sym.Some? && match q
      case Pulls(kind) => p.kind == kind && (kind.Select? || kind.Imply?)
      case Prompts(s) => p.kind == Prompt && sym == Some(s)
  }

  /** What a property whose condition has the value `v` adds: a symbol pulls no further than its
      own value. */
  function Adds(q: Query, sym: Option<Symbol>, p: Property, v: Tri, env: Env): Tri {
    if !Asks(q, sym, p) then NO else if q.Pulls? then Apply(AndOp, env.tri(sym.value), v) else v
  }

  /** The largest of what the properties of a menu node add. */
  function Largest(q: Query, sym: Option<Symbol>, props: seq<Property>, env: Env): Tri {
    if props == [] then NO
    else
      var p := props[|props| - 1];
      Apply(OrOp, Largest(q, sym, props[..|props| - 1], env), Adds(q, sym, p, OptVal(p.cond, env), env))
  }

  /** menu.c:403-413: expr_alloc_or onto what the symbol has been selected or implied by. */
  function Chain(rev: RevDeps, sym: Option<Symbol>, p: Property): (rev': RevDeps)
    ensures forall kind, env :: RevVal(rev', kind, env) ==
                                Apply(OrOp, RevVal(rev, kind, env), Adds(Pulls(kind), sym, p, OptVal(p.cond, env), env))
  {
    if !Asks(Pulls(p.kind), sym, p) then rev
    else
      var pull := AllocAnd(Some(Sym(sym.value)), p.cond).value;
      rev[p.kind := if p.kind in rev then Bin(OrOp, rev[p.kind], pull) else pull]
  }

  /** The properties have added what they ask for to the reverse dependencies. */
  ghost predicate Chained(rev: RevDeps, rev': RevDeps, sym: Option<Symbol>, props: seq<Property>) {
    forall kind, env :: RevVal(rev', kind, env) == Apply(OrOp, RevVal(rev, kind, env), Largest(Pulls(kind), sym, props, env))
  }

  lemma ChainedMore(rev: RevDeps, rev1: RevDeps, sym: Option<Symbol>, props: seq<Property>, p: Property)
    requires Chained(rev, rev1, sym, props)
    ensures Chained(rev, Chain(rev1, sym, p), sym, props + [p])
  {
    assert (props + [p])[..|props|] == props;
  }

  // ----- a level of children -----

  /** The symbol is there and cannot be m, so that expr_trans_bool is applied. */
  predicate OnlyYesNo(sym: Option<Symbol>) {
    sym.Some? && sym.value.typ != Tristate
  }

  ghost predicate ChildIn(k: set<Symbol>, c: Child) {
    OptConstsIn(k, c.dep) && forall j :: 0 <= j < |c.props| ==> OptConstsIn(k, c.props[j].cond)
  }

  /** What encloses a property's condition together with it: the smallest of the value handed down
      to the child, the child's dependency and the property's own condition, m read as m && MODULES
      in the last two. */
  ghost function Bound(above: Tri, dep: Option<Expr>, cond: Option<Expr>, env: Env): Tri {
    Apply(AndOp, Apply(AndOp, above, OptValM(dep, env)), OptValM(cond, env))
  }

  ghost predicate Decides(c: Child, p: Property, env: Env) {
    OptComparable(c.dep, env) && OptComparable(p.cond, env)
  }

  /** `v` is the bound, for a symbol that cannot be m up to the difference of m and y. */
  ghost predicate Meets(sym: Option<Symbol>, v: Tri, bound: Tri) {
    if OnlyYesNo(sym) then (v == NO <==> bound == NO) && v <= bound else v == bound
  }

  ghost predicate PropertyDone(k: set<Symbol>, modules: Symbol, parent: Option<Expr>, c: Child, p: Property, p': Property) {
    if !p.here then p' == p
    else
      && p' == p.(cond := p'.cond) && OptConstsIn(k, p'.cond) && Normalised(p'.cond)
      && forall env :: Allowed(k, modules, env) && Decides(c, p, env) ==>
           Meets(c.sym, OptVal(p'.cond, env), Bound(OptVal(parent, env), c.dep, p.cond, env))
  }

  ghost predicate ChildDone(k: set<Symbol>, modules: Symbol, parent: Option<Expr>, c: Child, c': Child) {
    && c'.sym == c.sym && |c'.props| == |c.props|
    && OptConstsIn(k, c'.dep) && Normalised(c'.dep) && Bounded(k, modules, parent, c.dep, c'.dep)
    && forall j :: 0 <= j < |c.props| ==> PropertyDone(k, modules, parent, c, c.props[j], c'.props[j])
  }

  lemma BoundExactly(k: set<Symbol>, modules: Symbol, parent: Option<Expr>, c: Child, p: Property, base: Option<Expr>,
                     cond: Option<Expr>, env: Env)
    requires Bounded(k, modules, parent, c.dep, base) && Bounded(k, modules, base, p.cond, cond)
    requires Allowed(k, modules, env) && Decides(c, p, env)
    ensures OptVal(cond, env) == Bound(OptVal(parent, env), c.dep, p.cond, env)
  {
  }

  /** One turn of the loop over properties (menu.c:368-413). */
  method PropagateProperty(ghost k: set<Symbol>, ghost parent: Option<Expr>, c: Child, base: Option<Expr>, p: Property,
                           modules: Symbol, rev: RevDeps)
    returns (p': Property, rev': RevDeps)
    requires TriConsts <= k && ChildIn(k, c) && OptConstsIn(k, p.cond) && OptConstsIn(k, base) && Normalised(base)
    requires Bounded(k, modules, parent, c.dep, base)
    ensures PropertyDone(k, modules, parent, c, p, p')
    ensures rev' == Chain(rev, c.sym, p')
  {
    if !p.here {
      return p, rev;
    }
    var dep := Propagate(k, base, p.cond, modules);
    ghost var exact := dep;
    if OnlyYesNo(c.sym) && dep.Some? {
      TransBoolKeepsShape(k, dep.value);
      dep := Some(TransBool(dep.value));
    }
    forall env | Allowed(k, modules, env) && Decides(c, p, env)
      ensures Meets(c.sym, OptVal(dep, env), Bound(OptVal(parent, env), c.dep, p.cond, env))
    {
      BoundExactly(k, modules, parent, c, p, base, exact, env);
      if exact.Some? {
        TransBoolKeepsNo(exact.value, env);
      }
    }
    p' := p.(cond := dep);
    rev' := rev;
    if c.sym.Some? && (p.kind.Select? || p.kind.Imply?) {
      rev' := Chain(rev, c.sym, p');
    }
  }

  /** One turn of the loop over children. */
  method PropagateChild(ghost k: set<Symbol>, parent: Option<Expr>, c: Child, modules: Symbol, rev: RevDeps)
    returns (c': Child, rev': RevDeps)
    requires TriConsts <= k && OptConstsIn(k, parent) && Normalised(parent) && ChildIn(k, c)
    ensures ChildDone(k, modules, parent, c, c') && Chained(rev, rev', c'.sym, c'.props)
  {
    var base := Propagate(k, parent, c.dep, modules);
    var props: seq<Property> := [];
    rev' := rev;
    for j := 0 to |c.props|
      invariant |props| == j && Chained(rev, rev', c.sym, props)
      invariant forall i :: 0 <= i < j ==> PropertyDone(k, modules, parent, c, c.props[i], props[i])
    {
      var p, next := PropagateProperty(k, parent, c, base, c.props[j], modules, rev');
      ChainedMore(rev, rev', c.sym, props, p);
      props, rev' := props + [p], next;
    }
    c' := Child(c.sym, base, props);
  }

  /** The largest of what the menu nodes of a level add. */
  function LargestOf(q: Query, cs: seq<Child>, env: Env): Tri {
    if cs == [] then NO
    else
      var c := cs[|cs| - 1];
      Apply(OrOp, LargestOf(q, cs[..|cs| - 1], env), Largest(q, c.sym, c.props, env))
  }

  ghost predicate ChainedAll(rev: RevDeps, rev': RevDeps, cs: seq<Child>) {
    forall kind, env :: RevVal(rev', kind, env) == Apply(OrOp, RevVal(rev, kind, env), LargestOf(Pulls(kind), cs, env))
  }

  lemma ChainedAllMore(rev: RevDeps, rev1: RevDeps, rev2: RevDeps, cs: seq<Child>, c: Child)
    requires ChainedAll(rev, rev1, cs) && Chained(rev1, rev2, c.sym, c.props)
    ensures ChainedAll(rev, rev2, cs + [c])
  {
    assert (cs + [c])[..|cs|] == cs;
  }

  /** The loop over the children of a menu node. The results are normalised again, as the
      dependency handed down to the next level has to be. */
  method PropagateChildren(ghost k: set<Symbol>, parent: Option<Expr>, children: seq<Child>, modules: Symbol, rev: RevDeps)
    returns (children': seq<Child>, rev': RevDeps)
    requires TriConsts <= k && OptConstsIn(k, parent) && Normalised(parent)
    requires forall i :: 0 <= i < |children| ==> ChildIn(k, children[i])
    ensures |children'| == |children| && ChainedAll(rev, rev', children')
    ensures forall i :: 0 <= i < |children| ==> ChildDone(k, modules, parent, children[i], children'[i])
  {
    children', rev' := [], rev;
    for i := 0 to |children|
      invariant |children'| == i && ChainedAll(rev, rev', children')
      invariant forall j :: 0 <= j < i ==> ChildDone(k, modules, parent, children[j], children'[j])
    {
      var c, next := PropagateChild(k, parent, children[i], modules, rev');
      ChainedAllMore(rev, rev', next, children', c);
      children', rev' := children' + [c], next;
    }
  }
}
