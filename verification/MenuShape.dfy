/** The tree that menu_finalize makes of a menu (kconf/menu.c:423-577), as a function of the tree
    that was parsed, and what it means: which siblings go below which symbol, and whose child every
    node is in the end. */
module MenuShape {
  import opened Common
  import opened MenuTree

  /** What menu_finalize asks of the nodes: whether a node has a symbol, whether its prompt has a
      text, and whether a later sibling belongs below a symbol (menu.c:455-481). */
  datatype Tests = Tests(hasSymbol: Id -> bool, hasText: Id -> bool, depends: (Id, Id) -> bool)

  // ----- automatic submenus -----

  /** The chain that starts at a node once that node is dealt with: its children have been, or if it
      has none and is a symbol, it has taken later siblings below it. */
  ghost function Absorbed(m: Tests, f: Forest): (r: Forest)
    requires f.Node?
    ensures r.Node? && r.id == f.id && Count(r) == Count(f)
    decreases Count(f), 1
  {
    if f.kids.Node? then Node(f.id, AbsorbedLevel(m, f.kids), f.rest)
    else if m.hasSymbol(f.id) then
      var run := AbsorbedRun(m, f.id, f.rest);
      Node(f.id, run.0, run.1)
    else f
  }

  /** Every node of a level in turn. */
  ghost function AbsorbedLevel(m: Tests, level: Forest): (r: Forest)
    ensures Count(r) == Count(level)
    decreases Count(level), 2
  {
    if level.Nil? then Nil
    else
      var g := Absorbed(m, level);
      Node(g.id, g.kids, AbsorbedLevel(m, g.rest))
  }

  /** The siblings that go below `p`, each dealt with first, and those that stay. */
  ghost function AbsorbedRun(m: Tests, p: Id, level: Forest): (r: (Forest, Forest))
    ensures Count(r.0) + Count(r.1) == Count(level)
    decreases Count(level), 2
  {
    if level.Nil? || !m.depends(p, level.id) then (Nil, level)
    else
      var g := Absorbed(m, level);
      var run := AbsorbedRun(m, p, g.rest);
      (Node(g.id, g.kids, run.0), run.1)
  }

  // ----- flattening -----

  lemma {:induction false} CountAppend(a: Forest, b: Forest)
    ensures Count(Append(a, b)) == Count(a) + Count(b)
  {
    if a.Node? {
      CountAppend(a.rest, b);
    }
  }

  /** The children of a node without text follow it on its own level, and are looked at next. */
  ghost function Flattened(m: Tests, level: Forest): Forest
    decreases Count(level)
  {
    if level.Nil? then Nil
    else if m.hasText(level.id) then level.(rest := Flattened(m, level.rest))
    else
      CountAppend(level.kids, level.rest);
      Node(level.id, Nil, Flattened(m, Append(level.kids, level.rest)))
  }

  /** Every level below the nodes of this one has been flattened. */
  ghost function Deep(m: Tests, level: Forest): Forest {
    if level.Nil? then Nil else Node(level.id, FlatKids(m, level.kids), Deep(m, level.rest))
  }

  /** The children of a node, flattened at every level. */
  ghost function FlatKids(m: Tests, kids: Forest): Forest {
    Flattened(m, if kids.Nil? then Nil else Node(kids.id, FlatKids(m, kids.kids), Deep(m, kids.rest)))
  }

  lemma FlatKidsIs(m: Tests, kids: Forest)
    ensures FlatKids(m, kids) == Flattened(m, Deep(m, kids))
  {
  }

  /** The chain that menu_finalize leaves. */
  ghost function Final(m: Tests, f: Forest): Forest
    requires f.Node?
  {
    var a := Absorbed(m, f);
    Node(f.id, FlatKids(m, a.kids), a.rest)
  }

  // ----- the order of the nodes -----

  lemma {:induction false} FlattenedOrder(m: Tests, level: Forest)
    ensures Preorder(Flattened(m, level)) == Preorder(level)
    decreases Count(level)
  {
    if level.Node? {
      if m.hasText(level.id) {
        FlattenedOrder(m, level.rest);
      } else {
        CountAppend(level.kids, level.rest);
        FlattenedOrder(m, Append(level.kids, level.rest));
        PreorderAppend(level.kids, level.rest);
        assert [level.id] + [] + (Preorder(level.kids) + Preorder(level.rest)) ==
               [level.id] + Preorder(level.kids) + Preorder(level.rest);
      }
    }
  }

  lemma {:induction false} DeepOrder(m: Tests, level: Forest)
    ensures Preorder(Deep(m, level)) == Preorder(level)
  {
    if level.Node? {
      DeepOrder(m, level.kids);
      DeepOrder(m, level.rest);
      FlatKidsIs(m, level.kids);
      FlattenedOrder(m, Deep(m, level.kids));
    }
  }

  lemma FlatKidsOrder(m: Tests, kids: Forest)
    ensures Preorder(FlatKids(m, kids)) == Preorder(kids)
  {
    FlatKidsIs(m, kids);
    DeepOrder(m, kids);
    FlattenedOrder(m, Deep(m, kids));
  }

  // ----- no node without text keeps children -----

  lemma {:induction false} FlattenedFlat(m: Tests, level: Forest)
    requires FlatBelow(m.hasText, level)
    ensures Flat(m.hasText, Flattened(m, level))
    decreases Count(level)
  {
    if level.Node? {
      if m.hasText(level.id) {
        FlattenedFlat(m, level.rest);
      } else {
        CountAppend(level.kids, level.rest);
        FlatIsFlatBelow(m.hasText, level.kids);
        FlatBelowAppend(m.hasText, level.kids, level.rest);
        FlattenedFlat(m, Append(level.kids, level.rest));
      }
    }
  }

  lemma {:induction false} DeepFlat(m: Tests, level: Forest)
    ensures FlatBelow(m.hasText, Deep(m, level))
  {
    if level.Node? {
      DeepFlat(m, level.kids);
      DeepFlat(m, level.rest);
      FlatKidsIs(m, level.kids);
      FlattenedFlat(m, Deep(m, level.kids));
    }
  }

  lemma FlatKidsFlat(m: Tests, kids: Forest)
    ensures Flat(m.hasText, FlatKids(m, kids))
  {
    FlatKidsIs(m, kids);
    DeepFlat(m, kids);
    FlattenedFlat(m, Deep(m, kids));
  }

  // ----- whose child every node is -----

  /** The parent of `x`, the nodes of the level having the parent `par`. */
  ghost function ParentIn(level: Forest, par: Id, x: Id): Id {
    if level.Nil? || level.id == x then par
    else if x in Preorder(level.kids) then ParentIn(level.kids, level.id, x)
    else ParentIn(level.rest, par, x)
  }

  /** The nearest node above `x` that has a text, `par` if there is none in between. */
  ghost function TextAbove(m: Tests, level: Forest, par: Id, x: Id): Id {
    if level.Nil? || level.id == x then par
    else if x in Preorder(level.kids) then TextAbove(m, level.kids, if m.hasText(level.id) then level.id else par, x)
    else TextAbove(m, level.rest, par, x)
  }

  /** The same for the top level only, whatever is below a node with text being left alone. */
  ghost function TopAbove(m: Tests, level: Forest, par: Id, x: Id): Id {
    if level.Nil? || level.id == x then par
    else if x in Preorder(level.kids) then
      if m.hasText(level.id) then ParentIn(level.kids, level.id, x) else TopAbove(m, level.kids, par, x)
    else TopAbove(m, level.rest, par, x)
  }

  lemma {:induction false} TopAboveAppend(m: Tests, a: Forest, b: Forest, par: Id, x: Id)
    ensures TopAbove(m, Append(a, b), par, x) == if x in Preorder(a) then TopAbove(m, a, par, x) else TopAbove(m, b, par, x)
  {
    if a.Node? {
      TopAboveAppend(m, a.rest, b, par, x);
    }
  }

  lemma {:induction false} FlattenedParent(m: Tests, level: Forest, par: Id, x: Id)
    ensures ParentIn(Flattened(m, level), par, x) == TopAbove(m, level, par, x)
    decreases Count(level)
  {
    if level.Node? {
      if m.hasText(level.id) {
        FlattenedParent(m, level.rest, par, x);
      } else {
        CountAppend(level.kids, level.rest);
        FlattenedParent(m, Append(level.kids, level.rest), par, x);
        TopAboveAppend(m, level.kids, level.rest, par, x);
      }
    }
  }

  lemma {:induction false} FlatTop(m: Tests, level: Forest, par: Id, x: Id)
    requires Flat(m.hasText, level)
    ensures TopAbove(m, level, par, x) == ParentIn(level, par, x)
  {
    if level.Node? {
      FlatTop(m, level.rest, par, x);
    }
  }

  lemma {:induction false} DeepParent(m: Tests, level: Forest, par: Id, x: Id)
    ensures TopAbove(m, Deep(m, level), par, x) == TextAbove(m, level, par, x)
    decreases level
  {
    if level.Node? && level.id != x {
      FlatKidsOrder(m, level.kids);
      if x in Preorder(level.kids) {
        var above := if m.hasText(level.id) then level.id else par;
        DeepParent(m, level.kids, above, x);
        FlatKidsIs(m, level.kids);
        FlattenedParent(m, Deep(m, level.kids), above, x);
        FlatKidsFlat(m, level.kids);
        FlatTop(m, FlatKids(m, level.kids), par, x);
      } else {
        DeepParent(m, level.rest, par, x);
      }
    }
  }

  /** After flattening every node is a child of the nearest node above it that has a text. */
  lemma ParentIsTextAbove(m: Tests, kids: Forest, par: Id, x: Id)
    ensures ParentIn(FlatKids(m, kids), par, x) == TextAbove(m, kids, par, x)
  {
    FlatKidsIs(m, kids);
    FlattenedParent(m, Deep(m, kids), par, x);
    DeepParent(m, kids, par, x);
  }

  /** The parent fields say so. */
  lemma {:induction false} SegParent(L: Links, first: Option<Id>, par: Id, f: Forest, after: Option<Id>, x: Id)
    requires Seg(L, first, Some(par), f, after) && x in Preorder(f)
    ensures Get(L.parent, x) == Some(ParentIn(f, par, x))
    decreases f
  {
    if f.id != x {
      if x in Preorder(f.kids) {
        SegParent(L, Get(L.list, f.id), f.id, f.kids, None, x);
      } else {
        SegParent(L, Get(L.next, f.id), par, f.rest, after, x);
      }
    }
  }

  // ----- which siblings go below which symbol -----

  /** `orig` gives the nodes below each node as they were parsed. */
  ghost predicate Parsed(orig: Id -> seq<Id>, f: Forest) {
    f.Nil? || (orig(f.id) == Preorder(f.kids) && Parsed(orig, f.kids) && Parsed(orig, f.rest))
  }

  ghost predicate AllDepend(m: Tests, p: Id, f: Forest) {
    f.Nil? || (m.depends(p, f.id) && AllDepend(m, p, f.rest))
  }

  /** The first sibling left beside `p`, if any, failed the test. */
  ghost predicate Stopped(m: Tests, p: Id, rest: Forest) {
    rest.Nil? || !m.depends(p, rest.id)
  }

  /** A symbol without children has been given a run of siblings that pass its test, and its next
      sibling does not; all other nodes have below them what they had. */
  ghost predicate GreedyAt(m: Tests, orig: Id -> seq<Id>, x: Id, kids: Forest, rest: Forest) {
    if orig(x) == [] && m.hasSymbol(x) then AllDepend(m, x, kids) && Stopped(m, x, rest)
    else Preorder(kids) == orig(x)
  }

  ghost predicate Greedy(m: Tests, orig: Id -> seq<Id>, f: Forest) {
    f.Nil? || (GreedyAt(m, orig, f.id, f.kids, f.rest) && Greedy(m, orig, f.kids) && Greedy(m, orig, f.rest))
  }

  ghost predicate GreedyHead(m: Tests, orig: Id -> seq<Id>, f: Forest, g: Forest)
    requires f.Node? && g.Node?
  {
    && GreedyAt(m, orig, g.id, g.kids, g.rest) && Greedy(m, orig, g.kids) && Parsed(orig, g.rest)
    && Preorder(g) == Preorder(f)
  }

  lemma {:induction false} HeadGreedy(m: Tests, orig: Id -> seq<Id>, f: Forest)
    requires f.Node? && Parsed(orig, f)
    ensures GreedyHead(m, orig, f, Absorbed(m, f))
    decreases Count(f), 1
  {
    if f.kids.Node? {
      LevelGreedy(m, orig, f.kids);
    } else if m.hasSymbol(f.id) {
      RunGreedy(m, orig, f.id, f.rest);
      BelowOrder(f, AbsorbedRun(m, f.id, f.rest));
    }
  }

  lemma BelowOrder(f: Forest, run: (Forest, Forest))
    requires f.Node? && f.kids.Nil? && Preorder(run.0) + Preorder(run.1) == Preorder(f.rest)
    ensures Preorder(Node(f.id, run.0, run.1)) == Preorder(f)
  {
    Regrouped([f.id], Preorder(run.0), Preorder(run.1));
    assert [f.id] + [] == [f.id];
  }

  /** Which siblings go where: the longest runs that pass the tests, from the first node on. */
  lemma {:induction false} LevelGreedy(m: Tests, orig: Id -> seq<Id>, level: Forest)
    requires Parsed(orig, level)
    ensures Greedy(m, orig, AbsorbedLevel(m, level)) && Preorder(AbsorbedLevel(m, level)) == Preorder(level)
    ensures level.Node? ==> AbsorbedLevel(m, level).Node? && AbsorbedLevel(m, level).id == level.id
    decreases Count(level), 2
  {
    if level.Node? {
      HeadGreedy(m, orig, level);
      LevelGreedy(m, orig, Absorbed(m, level).rest);
    }
  }

  lemma {:induction false} RunGreedy(m: Tests, orig: Id -> seq<Id>, p: Id, level: Forest)
    requires Parsed(orig, level)
    ensures var run := AbsorbedRun(m, p, level);
            && Greedy(m, orig, run.0) && AllDepend(m, p, run.0) && Stopped(m, p, run.1) && Parsed(orig, run.1)
            && Preorder(run.0) + Preorder(run.1) == Preorder(level)
            && (run.0.Node? ==> level.Node? && run.0.id == level.id)
    decreases Count(level), 2
  {
    if level.Node? && m.depends(p, level.id) {
      HeadGreedy(m, orig, level);
      var g := Absorbed(m, level);
      RunGreedy(m, orig, p, g.rest);
      RunOrder(g, AbsorbedRun(m, p, g.rest));
    }
  }

  lemma RunOrder(g: Forest, run: (Forest, Forest))
    requires g.Node? && Preorder(run.0) + Preorder(run.1) == Preorder(g.rest)
    ensures Preorder(Node(g.id, g.kids, run.0)) + Preorder(run.1) == Preorder(g)
  {
    Regrouped([g.id] + Preorder(g.kids), Preorder(run.0), Preorder(run.1));
  }

  lemma Regrouped(a: seq<Id>, b: seq<Id>, c: seq<Id>)
    ensures (a + b) + c == a + (b + c)
  {
  }

  lemma {:induction false} RunStops(m: Tests, p: Id, level: Forest)
    ensures AllDepend(m, p, AbsorbedRun(m, p, level).0) && Stopped(m, p, AbsorbedRun(m, p, level).1)
    decreases Count(level)
  {
    if level.Node? && m.depends(p, level.id) {
      RunStops(m, p, Absorbed(m, level).rest);
    }
  }

  lemma {:induction false} AllDependDeep(m: Tests, p: Id, f: Forest)
    requires AllDepend(m, p, f)
    ensures AllDepend(m, p, Deep(m, f))
  {
    if f.Node? {
      AllDependDeep(m, p, f.rest);
    }
  }

  // ----- one node more, for the loops -----

  /** The first node of a level, with what is below it, joins what is done. */
  ghost function Snoc(done: Forest, todo: Forest): Forest
    requires todo.Node?
  {
    Append(done, Node(todo.id, todo.kids, Nil))
  }

  lemma SnocAppend(done: Forest, g: Forest, rest: Forest)
    requires g.Node?
    ensures Append(Snoc(done, g), rest) == Append(done, Node(g.id, g.kids, rest))
  {
    AppendAssoc(done, Node(g.id, g.kids, Nil), rest);
  }

  /** One node of a level has been finalised. */
  lemma LevelStep(m: Tests, done: Forest, todo: Forest)
    requires todo.Node?
    ensures var g := Final(m, todo);
            Append(done, Deep(m, AbsorbedLevel(m, todo))) == Append(Snoc(done, g), Deep(m, AbsorbedLevel(m, g.rest)))
  {
    var g := Final(m, todo);
    SnocAppend(done, g, Deep(m, AbsorbedLevel(m, g.rest)));
  }

  /** One more sibling has been finalised and taken below `p`. */
  lemma RunStep(m: Tests, p: Id, done: Forest, todo: Forest)
    requires todo.Node? && m.depends(p, todo.id)
    ensures var g := Final(m, todo);
            && Append(done, Deep(m, AbsorbedRun(m, p, todo).0)) == Append(Snoc(done, g), Deep(m, AbsorbedRun(m, p, g.rest).0))
            && AbsorbedRun(m, p, todo).1 == AbsorbedRun(m, p, g.rest).1
  {
    var g := Final(m, todo);
    SnocAppend(done, g, Deep(m, AbsorbedRun(m, p, g.rest).0));
  }

  /** A chain once its first node has been flattened. */
  ghost function FlattenedOne(m: Tests, f: Forest): Forest
    requires f.Node?
  {
    if f.kids.Nil? || m.hasText(f.id) then f else Node(f.id, Nil, Append(f.kids, f.rest))
  }

  lemma FlattenStep(m: Tests, done: Forest, todo: Forest)
    requires todo.Node?
    ensures var g := FlattenedOne(m, todo);
            Append(done, Flattened(m, todo)) == Append(Snoc(done, g), Flattened(m, g.rest)) && Count(g) == Count(todo)
  {
    var g := FlattenedOne(m, todo);
    CountAppend(todo.kids, todo.rest);
    SnocAppend(done, g, Flattened(m, g.rest));
  }
}
