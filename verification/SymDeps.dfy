/** The search for recursive dependencies (kconf/symbol.c:1092-1344, called from
    kconf/zconf.y:554-557), for symbol graphs without choice groups. */
module SymDeps {
  import opened Common
  import opened KconfigExpr

  // ----- the dependency graph -----

  datatype PropKind = PromptProp | DefaultProp | SelectProp | ChoiceProp | OtherProp

  datatype Property = Property(kind: PropKind, visible: Option<Expr>, expr: Option<Expr>)

  /** The reverse dependencies and the properties of a symbol. */
  datatype Info = Info(revDep: Option<Expr>, props: seq<Property>)

  /** A symbol without an entry is a constant: it has no properties. */
  type Graph = map<Symbol, Info>

  /** What a line of the report says: "is selected by", "depends on", "value contains". */
  datatype Why = BySelect | ByCondition(prop: nat) | ByDefault(prop: nat)

  predicate Mentions(e: Expr, t: Symbol) {
    match e
    case Sym(s) => s == t
    case Cmp(_, l, r) => l == t || r == t
    case Not(a) => Mentions(a, t)
    case Bin(_, l, r) => Mentions(l, t) || Mentions(r, t)
  }

  predicate OptMentions(e: Option<Expr>, t: Symbol) {
    e.Some? && Mentions(e.value, t)
  }

  predicate Examined(k: PropKind) {
    k != ChoiceProp && k != SelectProp
  }

  /** `s` depends on `t`, for the stated reason. */
  predicate Edge(g: Graph, s: Symbol, why: Why, t: Symbol) {
    s in g && match why
      case BySelect => OptMentions(g[s].revDep, t)
      case ByCondition(i) => i < |g[s].props| && Examined(g[s].props[i].kind) && OptMentions(g[s].props[i].visible, t)
      case ByDefault(i) => i < |g[s].props| && g[s].props[i].kind == DefaultProp && OptMentions(g[s].props[i].expr, t)
  }

  datatype Frame = Frame(sym: Symbol, why: Why)

  /** Each entry depends on the next one, for the reason it names. */
  ghost predicate Chain(g: Graph, c: seq<Frame>) {
    forall i :: 0 <= i < |c| - 1 ==> Edge(g, c[i].sym, c[i].why, c[i + 1].sym)
  }

  ghost predicate Cycle(g: Graph, c: seq<Frame>) {
    |c| > 0 && Chain(g, c) && Edge(g, c[|c| - 1].sym, c[|c| - 1].why, c[0].sym)
  }

  /** The graph mentions only symbols of `u`. */
  ghost predicate Closed(g: Graph, u: set<Symbol>) {
    forall s, why, t :: s in u && Edge(g, s, why, t) ==> t in u
  }

  // ----- the state of the search -----

  /** The SYMBOL_CHECK and SYMBOL_CHECKED marks, the dep_stack and the reports printed. */
  datatype State = State(check: set<Symbol>, checked: set<Symbol>, stack: seq<Frame>, reports: seq<seq<Frame>>)

  ghost predicate OnStack(stack: seq<Frame>, x: Symbol) {
    exists i :: 0 <= i < |stack| && stack[i].sym == x
  }

  ghost predicate Marked(u: set<Symbol>, st: State) {
    && st.check <= st.checked <= u
    && (forall x :: x in st.check <==> OnStack(st.stack, x))
    && (forall i, j :: 0 <= i < j < |st.stack| ==> st.stack[i].sym != st.stack[j].sym)
  }

  /** Everything a symbol of `order` depends on stands before it. */
  ghost predicate Sorted(g: Graph, order: seq<Symbol>) {
    forall k, why, t :: 0 <= k < |order| && Edge(g, order[k], why, t) ==> t in order[..k]
  }

  /** While nothing was reported, the symbols checked to the end are sorted in `order`. */
  ghost predicate Settled(g: Graph, st: State, order: seq<Symbol>) {
    st.reports == [] ==> Sorted(g, order) && forall x :: x in st.checked && x !in st.check ==> x in order
  }

  ghost predicate Genuine(g: Graph, reports: seq<seq<Frame>>) {
    forall i :: 0 <= i < |reports| ==> Cycle(g, reports[i])
  }

  ghost predicate Inv(g: Graph, u: set<Symbol>, st: State, order: seq<Symbol>) {
    Closed(g, u) && Marked(u, st) && Chain(g, st.stack) && Genuine(g, st.reports) && Settled(g, st, order)
  }

  /** What every part of the search keeps. */
  ghost predicate Later(st: State, order: seq<Symbol>, st': State, order': seq<Symbol>) {
    && st'.stack == st.stack && st'.check == st.check && st.checked <= st'.checked
    && st.reports <= st'.reports && (forall t :: t in order ==> t in order')
  }

  /** The same while the reason of the top entry, which stands for `s`, may change. */
  ghost predicate LaterBelow(st: State, order: seq<Symbol>, st': State, order': seq<Symbol>, s: Symbol, why: Why) {
    && |st.stack| > 0 && st'.stack == st.stack[..|st.stack| - 1] + [Frame(s, why)]
    && st'.check == st.check && st.checked <= st'.checked
    && st.reports <= st'.reports && (forall t :: t in order ==> t in order')
  }

  ghost predicate Above(stack: seq<Frame>, s: Symbol, why: Why) {
    |stack| > 0 && stack[|stack| - 1] == Frame(s, why)
  }

  /** The symbol may be looked at from the top of the stack. */
  ghost predicate Reached(g: Graph, stack: seq<Frame>, s: Symbol) {
    |stack| == 0 || Edge(g, stack[|stack| - 1].sym, stack[|stack| - 1].why, s)
  }

  /** A symbol handed back is on the stack and was reported. */
  ghost predicate Answer(st: State, r: Option<Symbol>) {
    r.Some? ==> r.value in st.check && st.reports != []
  }

  // ----- acyclicity -----

  /** In a sorted order that holds a whole cycle, positions would fall all the way round. */
  lemma {:induction false} CycleGoesDown(g: Graph, order: seq<Symbol>, c: seq<Frame>, k: nat, i: nat)
    requires Sorted(g, order) && Cycle(g, c) && k < |c| && i < |order| && c[k].sym == order[i]
    ensures exists j :: 0 <= j <= i && order[j] == c[|c| - 1].sym
    decreases |c| - k
  {
    if k < |c| - 1 {
      assert Edge(g, c[k].sym, c[k].why, c[k + 1].sym);
      assert c[k + 1].sym in order[..i];
      var j :| 0 <= j < i && order[j] == c[k + 1].sym;
      CycleGoesDown(g, order, c, k + 1, j);
    }
  }

  lemma {:induction false} SortedHasNoCycle(g: Graph, order: seq<Symbol>, c: seq<Frame>, i: nat)
    requires Sorted(g, order) && i < |order| && |c| > 0 && c[0].sym == order[i]
    ensures !Cycle(g, c)
    decreases i
  {
    if Cycle(g, c) {
      CycleGoesDown(g, order, c, 0, i);
      var j :| 0 <= j <= i && order[j] == c[|c| - 1].sym;
      assert Edge(g, c[|c| - 1].sym, c[|c| - 1].why, c[0].sym);
      assert c[0].sym in order[..j];
      var j' :| 0 <= j' < j && order[j'] == c[0].sym;
      SortedHasNoCycle(g, order, c, j');
    }
  }

  // ----- steps of the search -----

  function Enter(st: State, s: Symbol): State {
    st.(check := st.check + {s}, checked := st.checked + {s}, stack := st.stack + [Frame(s, BySelect)])
  }

  function Leave(st: State, s: Symbol): State {
    st.(check := st.check - {s}, stack := if |st.stack| > 0 then st.stack[..|st.stack| - 1] else [])
  }

  function Retop(st: State, s: Symbol, why: Why): State {
    st.(stack := if |st.stack| > 0 then st.stack[..|st.stack| - 1] + [Frame(s, why)] else [])
  }

  lemma EnterInv(g: Graph, u: set<Symbol>, st: State, order: seq<Symbol>, s: Symbol)
    requires Inv(g, u, st, order) && s in u && s !in st.checked && Reached(g, st.stack, s)
    ensures Inv(g, u, Enter(st, s), order) && Above(Enter(st, s).stack, s, BySelect)
  {
    var st' := Enter(st, s);
    assert st'.stack[|st.stack|].sym == s;
    forall x ensures x in st'.check <==> OnStack(st'.stack, x) {
      if OnStack(st.stack, x) {
        var i :| 0 <= i < |st.stack| && st.stack[i].sym == x;
        assert st'.stack[i].sym == x;
      }
    }
    forall i | 0 <= i < |st.stack| ensures st.stack[i].sym != s {
      assert OnStack(st.stack, st.stack[i].sym);
    }
  }

  lemma RetopInv(g: Graph, u: set<Symbol>, st: State, order: seq<Symbol>, s: Symbol, old_: Why, why: Why)
    requires Inv(g, u, st, order) && Above(st.stack, s, old_)
    ensures Inv(g, u, Retop(st, s, why), order) && Above(Retop(st, s, why).stack, s, why)
  {
    var st' := Retop(st, s, why);
    assert forall i :: 0 <= i < |st.stack| ==> st'.stack[i].sym == st.stack[i].sym;
    forall x ensures OnStack(st'.stack, x) <==> OnStack(st.stack, x) {
      if OnStack(st.stack, x) {
        var i :| 0 <= i < |st.stack| && st.stack[i].sym == x;
        assert st'.stack[i].sym == x;
      }
    }
  }

  /** Every dependency of `s` is settled. */
  ghost predicate AllBefore(g: Graph, s: Symbol, order: seq<Symbol>) {
    forall why, t :: Edge(g, s, why, t) ==> t in order
  }

  ghost predicate PropertyBefore(g: Graph, s: Symbol, i: nat, order: seq<Symbol>) {
    forall t :: Edge(g, s, ByCondition(i), t) || Edge(g, s, ByDefault(i), t) ==> t in order
  }

  ghost predicate BeforeUpTo(g: Graph, s: Symbol, i: nat, order: seq<Symbol>) {
    && (forall t :: Edge(g, s, BySelect, t) ==> t in order)
    && forall j: nat :: j < i ==> PropertyBefore(g, s, j, order)
  }

  lemma BeforeStep(g: Graph, s: Symbol, i: nat, before: seq<Symbol>, order: seq<Symbol>)
    requires BeforeUpTo(g, s, i, before) && PropertyBefore(g, s, i, order) && forall t :: t in before ==> t in order
    ensures BeforeUpTo(g, s, i + 1, order)
  {
    forall j: nat | j < i + 1 ensures PropertyBefore(g, s, j, order) {
      if j < i {
        assert PropertyBefore(g, s, j, before);
      }
    }
  }

  lemma BeforeAll(g: Graph, s: Symbol, order: seq<Symbol>)
    requires s in g ==> BeforeUpTo(g, s, |g[s].props|, order)
    ensures AllBefore(g, s, order)
  {
    forall why, t | Edge(g, s, why, t) ensures t in order {
      if why != BySelect {
        assert PropertyBefore(g, s, why.prop, order);
      }
    }
  }

  lemma NoCycleLeft(g: Graph, list: seq<Symbol>, order: seq<Symbol>)
    requires Sorted(g, order) && (forall s :: s in g ==> s in list) && forall j :: 0 <= j < |list| ==> list[j] in order
    ensures !exists c :: Cycle(g, c)
  {
    forall c: seq<Frame> | Cycle(g, c) ensures false {
      assert Edge(g, c[0].sym, c[0].why, if |c| > 1 then c[1].sym else c[0].sym);
      assert c[0].sym in list;
      var i :| 0 <= i < |order| && order[i] == c[0].sym;
      SortedHasNoCycle(g, order, c, i);
    }
  }

  lemma LeaveInv(g: Graph, u: set<Symbol>, st: State, order: seq<Symbol>, s: Symbol, why: Why)
    requires Inv(g, u, st, order) && Above(st.stack, s, why)
    requires st.reports == [] ==> AllBefore(g, s, order)
    ensures Inv(g, u, Leave(st, s), order + [s])
  {
    LeaveMarked(u, st, s, why);
    var order' := order + [s];
    if st.reports == [] {
      forall k, why, t | 0 <= k < |order'| && Edge(g, order'[k], why, t) ensures t in order'[..k] {
        if k < |order| {
          assert order'[..k] == order[..k];
        } else {
          assert order'[..k] == order;
        }
      }
    }
  }

  /** A symbol entered, examined and left again. */
  lemma LeaveLater(st: State, order: seq<Symbol>, st': State, order': seq<Symbol>, s: Symbol, why: Why)
    requires s !in st.check && LaterBelow(Enter(st, s), order, st', order', s, why)
    ensures Later(st, order, Leave(st', s), order' + [s])
  {
    var top := Enter(st, s).stack;
    assert top[..|top| - 1] == st.stack;
    assert st'.stack == st.stack + [Frame(s, why)];
    assert st'.stack[..|st'.stack| - 1] == st.stack;
  }

  lemma ExploreEnds(g: Graph, u: set<Symbol>, st: State, order: seq<Symbol>, st': State, order': seq<Symbol>,
                    s: Symbol, why: Why, r: Option<Symbol>)
    requires s !in st.checked && st.check <= st.checked && LaterBelow(Enter(st, s), order, st', order', s, why)
    requires Inv(g, u, st', order') && Above(st'.stack, s, why) && (st'.reports == [] ==> AllBefore(g, s, order'))
    requires Answer(st', r)
    ensures Inv(g, u, Leave(st', s), order' + [s]) && Later(st, order, Leave(st', s), order' + [s])
    ensures r.Some? ==> (r.value == s || r.value in Leave(st', s).check) && Leave(st', s).reports != []
  {
    LeaveInv(g, u, st', order', s, why);
    LeaveLater(st, order, st', order', s, why);
  }

  lemma LeaveMarked(u: set<Symbol>, st: State, s: Symbol, why: Why)
    requires Marked(u, st) && Above(st.stack, s, why)
    ensures Marked(u, Leave(st, s))
  {
    var st', n := Leave(st, s), |st.stack| - 1;
    forall x ensures x in st'.check <==> OnStack(st'.stack, x) {
      if x in st.check && x != s {
        var i :| 0 <= i < |st.stack| && st.stack[i].sym == x;
        assert st'.stack[i].sym == x;
      }
      if OnStack(st'.stack, x) {
        var i :| 0 <= i < n && st'.stack[i].sym == x;
        assert st.stack[i].sym == x && st.stack[n].sym == s;
      }
    }
  }

  class DepChecker {
    const g: Graph
    ghost const u: set<Symbol>
    var st: State
    ghost var order: seq<Symbol>

    constructor (g: Graph, ghost u: set<Symbol>)
      ensures this.g == g && this.u == u && st == State({}, {}, [], []) && order == []
    {
      this.g, this.u := g, u;
      st, order := State({}, {}, [], []), [];
    }

    /** sym_check_print_recursive: the part of the stack from `last` on, a genuine cycle. The
        branch "unexpected recursive dependency error" is never taken. */
    method Report(last: Symbol)
      requires Inv(g, u, st, order) && last in st.check && Reached(g, st.stack, last)
      modifies this`st
      ensures Inv(g, u, st, order) && Later(old(st), order, st, order) && st.checked == old(st.checked)
      ensures exists k :: 0 <= k < |st.stack| && st.stack[k].sym == last && st.reports == old(st.reports) + [st.stack[k..]]
    {
      var k := |st.stack| - 1;
      while k >= 0 && st.stack[k].sym != last
        invariant -1 <= k < |st.stack|
        invariant forall i :: k < i < |st.stack| ==> st.stack[i].sym != last
      {
        k := k - 1;
      }
      assert OnStack(st.stack, last);
      assert Cycle(g, st.stack[k..]);
      st := st.(reports := st.reports + [st.stack[k..]]);
    }

    /** sym_check_deps. */
    method CheckDeps(s: Symbol) returns (r: Option<Symbol>)
      requires Inv(g, u, st, order) && s in u && Reached(g, st.stack, s)
      modifies this
      ensures Inv(g, u, st, order) && Later(old(st), old(order), st, order)
      ensures Answer(st, r) && (st.reports == [] ==> s in order)
      decreases u - st.checked, 2
    {
      if s in st.check {
        Report(s);
        return Some(s);
      }
      if s in st.checked {
        return None;
      }
      r := Explore(s);
      if r == Some(s) {
        r := None;
      }
    }

    /** symbol.c:1334-1336: marked, on the stack, examined, off the stack, unmarked. */
    method Explore(s: Symbol) returns (r: Option<Symbol>)
      requires Inv(g, u, st, order) && s in u && s !in st.checked && Reached(g, st.stack, s)
      modifies this
      ensures Inv(g, u, st, order) && Later(old(st), old(order), st, order) && (st.reports == [] ==> s in order)
      ensures r.Some? ==> (r.value == s || r.value in st.check) && st.reports != []
      decreases u - st.checked, 1
    {
      ghost var was, order0 := st, order;
      ghost var why;
      r, why := EnterAndCheck(s);
      ExploreEnds(g, u, was, order0, st, order, s, why, r);
      st, order := Leave(st, s), order + [s];
    }

    method EnterAndCheck(s: Symbol) returns (r: Option<Symbol>, ghost why: Why)
      requires Inv(g, u, st, order) && s in u && s !in st.checked && Reached(g, st.stack, s)
      modifies this
      ensures Inv(g, u, st, order) && LaterBelow(Enter(old(st), s), old(order), st, order, s, why) && Above(st.stack, s, why)
      ensures Answer(st, r) && (st.reports == [] ==> AllBefore(g, s, order))
      decreases u - st.checked, 0
    {
      EnterInv(g, u, st, order, s);
      st := Enter(st, s);
      r, why := CheckSym(s);
    }

    /** sym_check_sym_deps: the reverse dependencies, then the properties in turn. */
    method CheckSym(s: Symbol) returns (r: Option<Symbol>, ghost why: Why)
      requires Inv(g, u, st, order) && s in u && Above(st.stack, s, BySelect)
      modifies this
      ensures Inv(g, u, st, order) && LaterBelow(old(st), old(order), st, order, s, why)
      ensures Answer(st, r) && (st.reports == [] ==> AllBefore(g, s, order))
      decreases u - st.checked, 8
    {
      r, why := None, BySelect;
      if s !in g {
        return;
      }
      r := CheckOptional(g[s].revDep, s, BySelect);
      if r.Some? {
        return;
      }
      var i := 0;
      while i < |g[s].props|
        invariant 0 <= i <= |g[s].props|
        invariant Inv(g, u, st, order) && LaterBelow(old(st), old(order), st, order, s, why)
        invariant r.None? && (st.reports == [] ==> BeforeUpTo(g, s, i, order))
      {
        ghost var before := order;
        r, why := CheckProperty(s, i, why);
        if r.Some? {
          return;
        }
        if st.reports == [] {
          BeforeStep(g, s, i, before, order);
        }
        i := i + 1;
      }
      if st.reports == [] {
        BeforeAll(g, s, order);
      }
    }

    /** One turn of the loop of symbol.c:1253-1267. */
    method CheckProperty(s: Symbol, i: nat, ghost was: Why) returns (r: Option<Symbol>, ghost why: Why)
      requires Inv(g, u, st, order) && s in u && s in g && i < |g[s].props| && Above(st.stack, s, was)
      modifies this
      ensures Inv(g, u, st, order) && LaterBelow(old(st), old(order), st, order, s, why)
      ensures Answer(st, r) && (st.reports == [] ==> PropertyBefore(g, s, i, order))
      decreases u - st.checked, 7
    {
      r, why := None, was;
      var p := g[s].props[i];
      if p.kind == ChoiceProp || p.kind == SelectProp {
        return;
      }
      r := CheckUnder(p.visible, s, was, ByCondition(i));
      why := ByCondition(i);
      if r.None? && p.kind == DefaultProp {
        r, why := CheckDefault(s, i);
      }
    }

    /** symbol.c:1262-1266: the value of a default. */
    method CheckDefault(s: Symbol, i: nat) returns (r: Option<Symbol>, ghost why: Why)
      requires Inv(g, u, st, order) && s in u && s in g && i < |g[s].props| && Above(st.stack, s, ByCondition(i))
      requires g[s].props[i].kind == DefaultProp
      modifies this
      ensures Inv(g, u, st, order) && LaterBelow(old(st), old(order), st, order, s, why)
      ensures Answer(st, r) && (st.reports == [] ==> forall t :: OptMentions(g[s].props[i].expr, t) ==> t in order)
      decreases u - st.checked, 6
    {
      r := CheckUnder(g[s].props[i].expr, s, ByCondition(i), ByDefault(i));
      why := ByDefault(i);
      if r.None? {
        RetopInv(g, u, st, order, s, ByDefault(i), ByCondition(i));
        st, why := Retop(st, s, ByCondition(i)), ByCondition(i);
      }
    }

    /** An expression is examined after its place is noted in the stack entry of `s`. */
    method CheckUnder(e: Option<Expr>, s: Symbol, ghost was: Why, why: Why) returns (r: Option<Symbol>)
      requires Inv(g, u, st, order) && s in u && Above(st.stack, s, was)
      requires forall t :: OptMentions(e, t) ==> Edge(g, s, why, t)
      modifies this
      ensures Inv(g, u, st, order) && LaterBelow(old(st), old(order), st, order, s, why)
      ensures Answer(st, r) && (st.reports == [] ==> forall t :: OptMentions(e, t) ==> t in order)
      decreases u - st.checked, 5
    {
      RetopInv(g, u, st, order, s, was, why);
      st := Retop(st, s, why);
      r := CheckOptional(e, s, why);
    }

    method CheckOptional(e: Option<Expr>, ghost s: Symbol, ghost why: Why) returns (r: Option<Symbol>)
      requires Inv(g, u, st, order) && s in u && Above(st.stack, s, why)
      requires forall t :: OptMentions(e, t) ==> Edge(g, s, why, t)
      modifies this
      ensures Inv(g, u, st, order) && Later(old(st), old(order), st, order)
      ensures Answer(st, r) && (st.reports == [] ==> forall t :: OptMentions(e, t) ==> t in order)
      decreases u - st.checked, 4
    {
      r := None;
      if e.Some? {
        assert forall t :: Mentions(e.value, t) ==> OptMentions(e, t);
        r := CheckExpr(e.value, s, why);
      }
    }

    /** sym_check_expr_deps: the symbols of an expression, from left to right. */
    method CheckExpr(e: Expr, ghost s: Symbol, ghost why: Why) returns (r: Option<Symbol>)
      requires Inv(g, u, st, order) && s in u && Above(st.stack, s, why)
      requires forall t :: Mentions(e, t) ==> Edge(g, s, why, t)
      modifies this
      ensures Inv(g, u, st, order) && Later(old(st), old(order), st, order)
      ensures Answer(st, r) && (st.reports == [] ==> forall t :: Mentions(e, t) ==> t in order)
      decreases u - st.checked, 3, e
    {
      match e
      case Bin(_, left, right) =>
        r := CheckExpr(left, s, why);
        if r.None? {
          r := CheckExpr(right, s, why);
        }
      case Not(arg) =>
        r := CheckExpr(arg, s, why);
      case Cmp(_, left, right) =>
        assert Mentions(e, left) && Mentions(e, right);
        r := CheckDeps(left);
        if r.None? {
          r := CheckDeps(right);
        }
      case Sym(t) =>
        assert Mentions(e, t);
        r := CheckDeps(t);
    }
  }

  /** zconf.y:554-557: every symbol is checked. A cycle exists if and only if one is reported,
      every report is a genuine cycle with its genuine reasons, and the count of errors that
      is meant to make the program fail stays 0 either way. */
  method CheckAll(g: Graph, list: seq<Symbol>, ghost u: set<Symbol>) returns (reports: seq<seq<Frame>>, errors: int)
    requires Closed(g, u) && (forall s :: s in list ==> s in u) && forall s :: s in g ==> s in list
    ensures Genuine(g, reports)
    ensures reports != [] <==> exists c :: Cycle(g, c)
    ensures errors == 0
  {
    var checker := new DepChecker(g, u);
    errors := 0;
    var i := 0;
    while i < |list|
      invariant 0 <= i <= |list| && fresh(checker) && checker.g == g && checker.u == u
      invariant Inv(g, u, checker.st, checker.order) && checker.st.stack == []
      invariant checker.st.reports == [] ==> forall j :: 0 <= j < i ==> list[j] in checker.order
      invariant errors == 0
    {
      var r := checker.CheckDeps(list[i]);
      assert r.Some? ==> OnStack(checker.st.stack, r.value);
      if r.Some? {
        errors := errors + 1;
      }
      i := i + 1;
    }
    reports := checker.st.reports;
    if reports == [] {
      NoCycleLeft(g, list, checker.order);
    } else {
      assert Cycle(g, reports[0]);
    }
  }
}
