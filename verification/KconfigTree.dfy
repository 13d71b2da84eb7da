/** menu_finalize on a whole tree of menu nodes (kconf/menu.c:296-424), automatic submenus left
    aside, and the visibility and reverse dependencies that result (kconf/symbol.c:209-266). */
module KconfigTree {
  import opened Common
  import opened KconfigExpr
  import opened KconfigDups
  import opened KconfigPropagate

  /** A menu node with the nodes below it; `choice` says that its symbol stands for a choice. */
  datatype Node = Node(c: Child, choice: bool, children: seq<Node>)

  /** What the parser builds: menus, ifs and choices enclose other nodes, plain symbols do not; a
      node without a symbol has at most its prompt. */
  ghost predicate Parsed(n: Node) {
    && (n.children != [] ==> n.choice || n.c.sym.None?) && (n.choice ==> n.c.sym.Some?)
    && (n.c.sym.None? ==> |n.c.props| <= 1 && forall j :: 0 <= j < |n.c.props| ==> n.c.props[j].here)
    && forall i :: 0 <= i < |n.children| ==> Parsed(n.children[i])
  }

  ghost predicate NodeIn(k: set<Symbol>, n: Node) {
    ChildIn(k, n.c) && forall i :: 0 <= i < |n.children| ==> NodeIn(k, n.children[i])
  }

  // ----- what is handed down -----

  function PromptCond(c: Child): Option<Expr> {
    if c.props == [] then None else c.props[0].cond
  }

  /** The expression handed down to the nodes below (menu.c:329-341): the choice itself, or the
      condition of the prompt, or the dependency. */
  function Hand(n: Node): Option<Expr>
    requires n.choice ==> n.c.sym.Some?
  {
    if n.choice then Some(Sym(n.c.sym.value)) else if n.c.props != [] then n.c.props[0].cond else n.c.dep
  }

  /** Its value, from the nodes as they were parsed, outermost first: the smallest of all
      dependencies and prompt conditions, m read as m && MODULES, up to the innermost choice. */
  ghost function HandVal(top: Option<Expr>, above: seq<Node>, env: Env): Tri {
    if above == [] then OptVal(top, env)
    else
      var n := above[|above| - 1];
      if n.choice && n.c.sym.Some? then env.tri(n.c.sym.value)
      else Bound(HandVal(top, above[..|above| - 1], env), n.c.dep, PromptCond(n.c), env)
  }

  /** The orderings in those dependencies and conditions can be decided. */
  ghost predicate AboveDecides(above: seq<Node>, env: Env) {
    above == [] ||
    var n := above[|above| - 1];
    n.choice ||
    (AboveDecides(above[..|above| - 1], env) && OptComparable(n.c.dep, env) && OptComparable(PromptCond(n.c), env))
  }

  ghost predicate Handed(k: set<Symbol>, modules: Symbol, top: Option<Expr>, above: seq<Node>, hand: Option<Expr>) {
    && OptConstsIn(k, hand) && Normalised(hand)
    && forall env :: Allowed(k, modules, env) && AboveDecides(above, env) ==> OptVal(hand, env) == HandVal(top, above, env)
  }

  lemma HandedOn(k: set<Symbol>, modules: Symbol, top: Option<Expr>, above: seq<Node>, hand: Option<Expr>, n: Node, n': Node)
    requires Handed(k, modules, top, above, hand) && ChildDone(k, modules, hand, n.c, n'.c)
    requires Parsed(n) && n'.choice == n.choice && (n.choice || n.c.sym.None?)
    ensures Handed(k, modules, top, above + [n], Hand(n'))
  {
    var all := above + [n];
    assert all[..|above|] == above && all[|above|] == n;
    if !n.choice && n.c.props != [] {
      assert PropertyDone(k, modules, hand, n.c, n.c.props[0], n'.c.props[0]);
    }
    forall env | Allowed(k, modules, env) && AboveDecides(all, env) ensures OptVal(Hand(n'), env) == HandVal(top, all, env) {
      if !n.choice && n.c.props != [] {
        assert Decides(n.c, n.c.props[0], env);
      }
    }
  }

  // ----- the tree afterwards -----

  /** Every node's dependency and the conditions of its properties are bounded by what is handed
      down to it, and that is the smallest of what is above. */
  ghost predicate TreeDone(k: set<Symbol>, modules: Symbol, top: Option<Expr>, above: seq<Node>, hand: Option<Expr>,
                           n: Node, n': Node)
    decreases n
  {
    && Handed(k, modules, top, above, hand) && ChildDone(k, modules, hand, n.c, n'.c)
    && n'.choice == n.choice && (n'.choice ==> n'.c.sym.Some?) && |n'.children| == |n.children|
    && forall i :: 0 <= i < |n.children| ==>
         TreeDone(k, modules, top, above + [n], Hand(n'), n.children[i], n'.children[i])
  }

  lemma TreeAssembled(k: set<Symbol>, modules: Symbol, top: Option<Expr>, above: seq<Node>, hand: Option<Expr>,
                      n: Node, n1: Node, n': Node)
    requires Handed(k, modules, top, above, hand) && ChildDone(k, modules, hand, n.c, n1.c) && Parsed(n)
    requires n1 == n.(c := n1.c) && n' == n1.(children := n'.children) && |n'.children| == |n.children|
    requires forall i :: 0 <= i < |n.children| ==>
               TreeDone(k, modules, top, above + [n], Hand(n1), n.children[i], n'.children[i])
    ensures TreeDone(k, modules, top, above, hand, n, n')
  {
    assert Hand(n') == Hand(n1);
  }

  /** menu_finalize. `n` is the node as it was parsed and `parent` the same node once the level it
      is on has been dealt with. */
  method Finalize(ghost k: set<Symbol>, ghost top: Option<Expr>, ghost above: seq<Node>, ghost n: Node, parent: Node,
                  modules: Symbol, rev: RevDeps)
    returns (parent': Node, rev': RevDeps)
    requires TriConsts <= k && NodeIn(k, n) && Parsed(n) && parent == n.(c := parent.c) && parent.c.sym == n.c.sym
    requires n.children != [] ==> Handed(k, modules, top, above + [n], Hand(parent))
    ensures parent' == parent.(children := parent'.children) && |parent'.children| == |n.children|
    ensures forall i :: 0 <= i < |n.children| ==>
              TreeDone(k, modules, top, above + [n], Hand(parent), n.children[i], parent'.children[i])
    ensures Gathered(rev, rev', parent'.children)
    decreases n
  {
    if parent.children == [] {
      return parent, rev;
    }
    var hand := Hand(parent);
    var level, rev1 := FinalizeLevel(k, hand, parent.children, modules, rev);
    var done: seq<Node> := [];
    rev' := rev1;
    for i := 0 to |level|
      invariant |done| == i && forall j :: 0 <= j < i ==> done[j].c == level[j].c
      invariant forall j :: 0 <= j < i ==> TreeDone(k, modules, top, above + [n], hand, n.children[j], done[j])
      invariant GatheredBelow(rev1, rev', done)
    {
      ghost var m := n.children[i];
      if m.children != [] {
        HandedOn(k, modules, top, above + [n], hand, m, level[i]);
      }
      var d, next := Finalize(k, top, above + [n], m, level[i], modules, rev');
      TreeAssembled(k, modules, top, above + [n], hand, m, level[i], d);
      GatheredBelowMore(rev1, rev', next, done, d);
      done, rev' := done + [d], next;
    }
    GatheredBoth(rev, rev1, rev', Childs(level), done);
    parent' := parent.(children := done);
  }

  function Childs(ns: seq<Node>): seq<Child> {
    seq(|ns|, i requires 0 <= i < |ns| => ns[i].c)
  }

  /** The loop over the children (menu.c:343-416). */
  method FinalizeLevel(ghost k: set<Symbol>, hand: Option<Expr>, ns: seq<Node>, modules: Symbol, rev: RevDeps)
    returns (ns': seq<Node>, rev': RevDeps)
    requires TriConsts <= k && OptConstsIn(k, hand) && Normalised(hand)
    requires forall i :: 0 <= i < |ns| ==> ChildIn(k, ns[i].c)
    ensures |ns'| == |ns| && ChainedAll(rev, rev', Childs(ns'))
    ensures forall i :: 0 <= i < |ns| ==> ns'[i] == ns[i].(c := ns'[i].c) && ChildDone(k, modules, hand, ns[i].c, ns'[i].c)
  {
    var cs;
    cs, rev' := PropagateChildren(k, hand, Childs(ns), modules, rev);
    ns' := seq(|ns|, i requires 0 <= i < |ns| && |cs| == |ns| => ns[i].(c := cs[i]));
    assert Childs(ns') == cs;
    assert forall i :: 0 <= i < |ns| ==> Childs(ns)[i] == ns[i].c;
  }

  // ----- reverse dependencies and prompts -----

  /** The largest of what the properties of a node and of all nodes below it add. */
  function LargestIn(q: Query, n: Node, env: Env): Tri
    decreases n, 1
  {
    Apply(OrOp, Largest(q, n.c.sym, n.c.props, env), LargestAmong(q, n.children, env))
  }

  function LargestAmong(q: Query, ns: seq<Node>, env: Env): Tri
    decreases ns, 0
  {
    if ns == [] then NO
    else Apply(OrOp, LargestAmong(q, ns[..|ns| - 1], env), LargestIn(q, ns[|ns| - 1], env))
  }

  /** The same without the properties of the nodes themselves. */
  function LargestBelow(q: Query, ns: seq<Node>, env: Env): Tri {
    if ns == [] then NO
    else Apply(OrOp, LargestBelow(q, ns[..|ns| - 1], env), LargestAmong(q, ns[|ns| - 1].children, env))
  }

  /** The reverse dependencies have grown by what the nodes and all below them select and imply. */
  ghost predicate Gathered(rev: RevDeps, rev': RevDeps, ns: seq<Node>) {
    forall kind, env :: RevVal(rev', kind, env) == Apply(OrOp, RevVal(rev, kind, env), LargestAmong(Pulls(kind), ns, env))
  }

  ghost predicate GatheredBelow(rev: RevDeps, rev': RevDeps, ns: seq<Node>) {
    forall kind, env :: RevVal(rev', kind, env) == Apply(OrOp, RevVal(rev, kind, env), LargestBelow(Pulls(kind), ns, env))
  }

  lemma GatheredBelowMore(rev: RevDeps, rev1: RevDeps, rev2: RevDeps, ns: seq<Node>, n: Node)
    requires GatheredBelow(rev, rev1, ns) && Gathered(rev1, rev2, n.children)
    ensures GatheredBelow(rev, rev2, ns + [n])
  {
    assert (ns + [n])[..|ns|] == ns;
  }

  lemma {:induction false} LevelAndBelow(q: Query, cs: seq<Child>, ns: seq<Node>, env: Env)
    requires |cs| == |ns| && forall i :: 0 <= i < |ns| ==> ns[i].c == cs[i]
    ensures LargestAmong(q, ns, env) == Apply(OrOp, LargestOf(q, cs, env), LargestBelow(q, ns, env))
  {
    if ns != [] {
      LevelAndBelow(q, cs[..|cs| - 1], ns[..|ns| - 1], env);
    }
  }

  lemma GatheredBoth(rev: RevDeps, rev1: RevDeps, rev2: RevDeps, cs: seq<Child>, ns: seq<Node>)
    requires ChainedAll(rev, rev1, cs) && GatheredBelow(rev1, rev2, ns)
    requires |cs| == |ns| && forall i :: 0 <= i < |ns| ==> ns[i].c == cs[i]
    ensures Gathered(rev, rev2, ns)
  {
    forall kind, env
      ensures RevVal(rev2, kind, env) == Apply(OrOp, RevVal(rev, kind, env), LargestAmong(Pulls(kind), ns, env))
    {
      LevelAndBelow(Pulls(kind), cs, ns, env);
    }
  }

  // ----- in terms of the tree as it was parsed -----

  /** The nodes from the root to one below it, by the positions to descend to. */
  ghost predicate IsPath(n: Node, path: seq<nat>)
    decreases path
  {
    path == [] || (path[0] < |n.children| && IsPath(n.children[path[0]], path[1..]))
  }

  ghost function At(n: Node, path: seq<nat>): Node
    requires IsPath(n, path)
    decreases path
  {
    if path == [] then n else At(n.children[path[0]], path[1..])
  }

  ghost function AboveAt(above: seq<Node>, n: Node, path: seq<nat>): seq<Node>
    requires IsPath(n, path)
    decreases path
  {
    if path == [] then above else AboveAt(above + [n], n.children[path[0]], path[1..])
  }

  /** Wherever a node is, its dependency ends up as the smaller of its own and what is above. */
  lemma {:induction false} EveryNode(k: set<Symbol>, modules: Symbol, top: Option<Expr>, above: seq<Node>, hand: Option<Expr>,
                                     n: Node, n': Node, path: seq<nat>, env: Env)
    requires TreeDone(k, modules, top, above, hand, n, n') && IsPath(n, path) && Allowed(k, modules, env)
    requires AboveDecides(AboveAt(above, n, path), env) && OptComparable(At(n, path).c.dep, env)
    ensures IsPath(n', path) && At(n', path).c.sym == At(n, path).c.sym
    ensures OptVal(At(n', path).c.dep, env) ==
            Apply(AndOp, HandVal(top, AboveAt(above, n, path), env), OptValM(At(n, path).c.dep, env))
    decreases path
  {
    if path != [] {
      var i := path[0];
      EveryNode(k, modules, top, above + [n], Hand(n'), n.children[i], n'.children[i], path[1..], env);
    }
  }

  /** What the properties of a child add when their conditions are at their bounds. */
  ghost function BoundProps(q: Query, above: Tri, c: Child, props: seq<Property>, env: Env): Tri {
    if props == [] then NO
    else
      var p := props[|props| - 1];
      Apply(OrOp, BoundProps(q, above, c, props[..|props| - 1], env), Adds(q, c.sym, p, Bound(above, c.dep, p.cond, env), env))
  }

  ghost function BoundIn(q: Query, top: Option<Expr>, above: seq<Node>, n: Node, env: Env): Tri
    decreases n, 1
  {
    Apply(OrOp, BoundProps(q, HandVal(top, above, env), n.c, n.c.props, env), BoundAmong(q, top, above + [n], n.children, env))
  }

  ghost function BoundAmong(q: Query, top: Option<Expr>, above: seq<Node>, ns: seq<Node>, env: Env): Tri
    decreases ns, 0
  {
    if ns == [] then NO
    else Apply(OrOp, BoundAmong(q, top, above, ns[..|ns| - 1], env), BoundIn(q, top, above, ns[|ns| - 1], env))
  }

  /** All orderings in the tree can be decided. */
  ghost predicate TreeDecides(n: Node, env: Env) {
    && OptComparable(n.c.dep, env) && (forall j :: 0 <= j < |n.c.props| ==> Decides(n.c, n.c.props[j], env))
    && forall i :: 0 <= i < |n.children| ==> TreeDecides(n.children[i], env)
  }

  /** Nobody who is asked has a symbol that cannot be m. */
  ghost predicate TristatesOnly(q: Query, n: Node) {
    && (forall j :: 0 <= j < |n.c.props| && OnlyYesNo(n.c.sym) ==> !Asks(q, n.c.sym, n.c.props[j]))
    && forall i :: 0 <= i < |n.children| ==> TristatesOnly(q, n.children[i])
  }

  /** The same as far as being n goes, and not above. */
  ghost predicate Near(v: Tri, bound: Tri) {
    (v == NO <==> bound == NO) && v <= bound
  }

  /** Larger of two, on both sides. */
  lemma NearOr(v: Tri, bound: Tri, w: Tri, bound': Tri)
    requires Near(v, bound) && Near(w, bound')
    ensures Near(Apply(OrOp, v, w), Apply(OrOp, bound, bound'))
  {
  }

  /** What one property adds. */
  lemma AddsRead(k: set<Symbol>, modules: Symbol, hand: Option<Expr>, q: Query, c: Child, p: Property, p': Property, env: Env)
    requires PropertyDone(k, modules, hand, c, p, p') && Allowed(k, modules, env) && Decides(c, p, env)
    ensures var v, bound := Adds(q, c.sym, p', OptVal(p'.cond, env), env),
                            Adds(q, c.sym, p, Bound(OptVal(hand, env), c.dep, p.cond, env), env);
            Near(v, bound) && ((OnlyYesNo(c.sym) ==> !Asks(q, c.sym, p)) ==> v == bound)
  {
  }

  lemma {:induction false} PropsRead(k: set<Symbol>, modules: Symbol, hand: Option<Expr>, q: Query, c: Child, c': Child, m: nat, env: Env)
    requires ChildDone(k, modules, hand, c, c') && Allowed(k, modules, env) && m <= |c.props|
    requires forall j :: 0 <= j < |c.props| ==> Decides(c, c.props[j], env)
    ensures var v, bound := Largest(q, c'.sym, c'.props[..m], env), BoundProps(q, OptVal(hand, env), c, c.props[..m], env);
            && Near(v, bound)
            && ((forall j :: 0 <= j < m && OnlyYesNo(c.sym) ==> !Asks(q, c.sym, c.props[j])) ==> v == bound)
  {
    if m > 0 {
      PropsRead(k, modules, hand, q, c, c', m - 1, env);
      assert c.props[..m][..m - 1] == c.props[..m - 1] && c'.props[..m][..m - 1] == c'.props[..m - 1];
      AddsRead(k, modules, hand, q, c, c.props[m - 1], c'.props[m - 1], env);
      NearOr(Largest(q, c.sym, c'.props[..m - 1], env), BoundProps(q, OptVal(hand, env), c, c.props[..m - 1], env),
             Adds(q, c.sym, c'.props[m - 1], OptVal(c'.props[m - 1].cond, env), env),
             Adds(q, c.sym, c.props[m - 1], Bound(OptVal(hand, env), c.dep, c.props[m - 1].cond, env), env));
    }
  }

  lemma {:induction false} TreeReads(k: set<Symbol>, modules: Symbol, top: Option<Expr>, above: seq<Node>, hand: Option<Expr>,
                                     q: Query, n: Node, n': Node, env: Env)
    requires TreeDone(k, modules, top, above, hand, n, n') && Allowed(k, modules, env)
    requires AboveDecides(above, env) && TreeDecides(n, env)
    ensures var v, bound := LargestIn(q, n', env), BoundIn(q, top, above, n, env);
            Near(v, bound) && (TristatesOnly(q, n) ==> v == bound)
    decreases n, 1
  {
    OwnRead(k, modules, hand, q, n, n', env);
    DecidesOn(above, n, env);
    ForestReads(k, modules, top, above + [n], Hand(n'), q, n.children, n'.children, env);
    NearOr(Largest(q, n'.c.sym, n'.c.props, env), BoundProps(q, OptVal(hand, env), n.c, n.c.props, env),
           LargestAmong(q, n'.children, env), BoundAmong(q, top, above + [n], n.children, env));
  }

  /** The node itself. */
  lemma OwnRead(k: set<Symbol>, modules: Symbol, hand: Option<Expr>, q: Query, n: Node, n': Node, env: Env)
    requires ChildDone(k, modules, hand, n.c, n'.c) && Allowed(k, modules, env) && TreeDecides(n, env)
    ensures var v, bound := Largest(q, n'.c.sym, n'.c.props, env), BoundProps(q, OptVal(hand, env), n.c, n.c.props, env);
            Near(v, bound) && (TristatesOnly(q, n) ==> v == bound)
  {
    PropsRead(k, modules, hand, q, n.c, n'.c, |n.c.props|, env);
    assert n.c.props[..|n.c.props|] == n.c.props && n'.c.props[..|n.c.props|] == n'.c.props;
  }

  lemma DecidesOn(above: seq<Node>, n: Node, env: Env)
    requires AboveDecides(above, env) && TreeDecides(n, env)
    ensures AboveDecides(above + [n], env)
  {
    assert (above + [n])[..|above|] == above;
    if n.c.props != [] {
      assert Decides(n.c, n.c.props[0], env);
    }
  }

  lemma {:induction false} ForestReads(k: set<Symbol>, modules: Symbol, top: Option<Expr>, above: seq<Node>, hand: Option<Expr>,
                                       q: Query, ns: seq<Node>, ns': seq<Node>, env: Env)
    requires |ns'| == |ns| && Allowed(k, modules, env) && AboveDecides(above, env)
    requires forall i :: 0 <= i < |ns| ==> TreeDone(k, modules, top, above, hand, ns[i], ns'[i])
    requires forall i :: 0 <= i < |ns| ==> TreeDecides(ns[i], env)
    ensures var v, bound := LargestAmong(q, ns', env), BoundAmong(q, top, above, ns, env);
            Near(v, bound) && ((forall i :: 0 <= i < |ns| ==> TristatesOnly(q, ns[i])) ==> v == bound)
    decreases ns, 0
  {
    if ns != [] {
      var m := |ns| - 1;
      ForestReads(k, modules, top, above, hand, q, ns[..m], ns'[..m], env);
      TreeReads(k, modules, top, above, hand, q, ns[m], ns'[m], env);
    }
  }

  lemma {:induction false} PromptsOfTristate(s: Symbol, n: Node)
    requires s.typ == Tristate
    ensures TristatesOnly(Prompts(s), n)
  {
    forall i | 0 <= i < |n.children| ensures TristatesOnly(Prompts(s), n.children[i]) {
      PromptsOfTristate(s, n.children[i]);
    }
  }

  // ----- what sym_calc_visibility makes of it -----

  /** m counts as y for a symbol that cannot be m. */
  function Promote(v: Tri, canBeMod: bool): Tri {
    if v == MOD && !canBeMod then YES else v
  }

  /** The visibility of a symbol, wherever in the tree its prompts are (symbol.c:221-235): the
      largest prompt condition, promoted. */
  function Visibility(s: Symbol, ns: seq<Node>, env: Env): Tri {
    Promote(LargestAmong(Prompts(s), ns, env), s.typ == Tristate && env.tri(env.modules) != NO)
  }

  /** It is the largest prompt condition, except that a symbol that cannot be m is y where that is m,
      and so never m. */
  lemma VisibilityMeans(s: Symbol, ns: seq<Node>, env: Env)
    ensures var v, largest, canBeMod := Visibility(s, ns, env), LargestAmong(Prompts(s), ns, env),
                                        s.typ == Tristate && env.tri(env.modules) != NO;
            && (v == NO <==> largest == NO) && v >= largest && (canBeMod ==> v == largest) && (!canBeMod ==> v != MOD)
  {
  }

  /** A symbol is visible exactly as far as the largest bound of its prompts in the tree as it was
      parsed, m promoted to y where the symbol cannot be m: expr_trans_bool has not changed that. */
  lemma VisibilityAfter(k: set<Symbol>, modules: Symbol, top: Option<Expr>, above: seq<Node>, hand: Option<Expr>, s: Symbol,
                        ns: seq<Node>, ns': seq<Node>, env: Env)
    requires |ns'| == |ns| && Allowed(k, modules, env) && AboveDecides(above, env)
    requires forall i :: 0 <= i < |ns| ==> TreeDone(k, modules, top, above, hand, ns[i], ns'[i]) && TreeDecides(ns[i], env)
    ensures Visibility(s, ns', env) ==
            Promote(BoundAmong(Prompts(s), top, above, ns, env), s.typ == Tristate && env.tri(modules) != NO)
  {
    if s.typ == Tristate {
      forall i | 0 <= i < |ns| ensures TristatesOnly(Prompts(s), ns[i]) {
        PromptsOfTristate(s, ns[i]);
      }
    }
    ForestReads(k, modules, top, above, hand, Prompts(s), ns, ns', env);
  }

  /** menu_finalize on the main menu, whose prompt has no condition: the trees below it are done,
      and a symbol is selected or implied as far as the largest bound of the properties that do so,
      exactly if only tristate symbols have such properties, and else as far as being n goes. */
  method FinalizeRoot(ghost k: set<Symbol>, root: Node, modules: Symbol) returns (root': Node, rev: RevDeps)
    requires TriConsts <= k && NodeIn(k, root) && Parsed(root) && !root.choice && root.c.sym.None?
    requires root.c.dep.None? && PromptCond(root.c).None?
    ensures |root'.children| == |root.children|
    ensures forall i :: 0 <= i < |root.children| ==>
              TreeDone(k, modules, None, [root], None, root.children[i], root'.children[i])
    ensures forall env, kind :: Allowed(k, modules, env) && TreeDecides(root, env) ==>
              Near(RevVal(rev, kind, env), BoundAmong(Pulls(kind), None, [root], root.children, env))
    ensures forall env, kind :: Allowed(k, modules, env) && TreeDecides(root, env) && TristatesOnly(Pulls(kind), root) ==>
              RevVal(rev, kind, env) == BoundAmong(Pulls(kind), None, [root], root.children, env)
  {
    assert [] + [root] == [root];
    root', rev := Finalize(k, None, [], root, root, modules, map[]);
    forall env, kind | Allowed(k, modules, env) && TreeDecides(root, env)
      ensures var v, bound := RevVal(rev, kind, env), BoundAmong(Pulls(kind), None, [root], root.children, env);
              Near(v, bound) && (TristatesOnly(Pulls(kind), root) ==> v == bound)
    {
      DecidesOn([], root, env);
      ForestReads(k, modules, None, [root], None, Pulls(kind), root.children, root'.children, env);
    }
  }
}
