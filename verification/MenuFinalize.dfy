/** menu_finalize (kconf/menu.c:423-577), as far as it relinks the menu nodes, and the walk of
    conf_write over the result (kconf/confdata.c:790-823). */
module MenuFinalize {
  import opened Common
  import opened MenuTree
  import opened MenuShape

  // ----- steps of the loops, on the links -----

  /** A node of the level was finalised while its later siblings were still to do. */
  lemma ChildStep(L: Links, L': Links, first: Option<Id>, p: Id, done: Forest, par: Option<Id>, todo: Forest, todo': Forest)
    requires todo.Node? && Level(L, first, p, done, Some(todo.id), par, todo)
    requires Finalized(L, L', todo.id, par, todo, todo')
    requires forall x :: x in Preorder(done) ==> x !in Preorder(todo)
    ensures Level(L', first, p, done, Some(todo.id), par, todo')
  {
    SegOutside(L, L', Preorder(todo), first, Some(p), done, Some(todo.id));
  }

  /** A finalised later sibling of `p` gets `p` as its parent. */
  lemma AbsorbStep(L: Links, first: Option<Id>, p: Id, done: Forest, par: Option<Id>, todo: Forest)
    requires todo.Node? && Level(L, first, p, done, Some(todo.id), par, todo)
    requires Distinct(todo) && todo.id !in Preorder(done)
    ensures Level(SetParent(L, todo.id, Some(p)), first, p, Append(done, Node(todo.id, todo.kids, Nil)),
                  Get(L.next, todo.id), par, todo.rest)
  {
    var L', one := SetParent(L, todo.id, Some(p)), Node(todo.id, todo.kids, Nil);
    SegSetParent(L, todo.id, Some(p), first, Some(p), done, Some(todo.id));
    SegSetParent(L, todo.id, Some(p), Get(L.list, todo.id), Some(todo.id), todo.kids, None);
    SegSetParent(L, todo.id, Some(p), Get(L.next, todo.id), par, todo.rest, None);
    assert Seg(L', Some(todo.id), Some(p), one, Get(L.next, todo.id));
    SegAppend(L', first, Some(p), done, Some(todo.id), one, Get(L.next, todo.id));
  }

  /** The three writes that turn the siblings up to `last` into children of `p`. */
  function AbsorbWrites(L: Links, p: Id, last: Id): Links {
    SetNext(SetNext(SetList(L, p, Get(L.next, p)), p, Get(L.next, last)), last, None)
  }

  lemma AbsorbDone(L: Links, p: Id, par: Option<Id>, done: Forest, menu: Option<Id>, todo: Forest)
    requires done.Node? && Distinct(done) && Level(L, Get(L.next, p), p, done, menu, par, todo)
    requires p !in Preorder(done) && p !in Preorder(todo) && Get(L.parent, p) == par
    requires forall x :: x in Preorder(done) ==> x !in Preorder(todo)
    ensures Seg(AbsorbWrites(L, p, Last(done)), Some(p), par, Node(p, done, todo), None)
  {
    var last, first := Last(done), Get(L.next, p);
    LastIn(done);
    SegLast(L, first, Some(p), done, menu);
    var L1 := SetList(L, p, first);
    var L2 := SetNext(L1, p, menu);
    SegSetList(L, p, first, first, Some(p), done, menu);
    SegSetNext(L1, p, menu, first, Some(p), done, menu);
    SegRelink(L2, first, Some(p), done, menu, None);
    SegSetList(L, p, first, menu, par, todo, None);
    SegSetNext(L1, p, menu, menu, par, todo, None);
    SegSetNext(L2, last, None, menu, par, todo, None);
  }

  /** The three writes that put the children of `menu`, up to `last`, behind it. */
  function SpliceWrites(L: Links, menu: Id, last: Id): Links {
    SetList(SetNext(SetNext(L, last, Get(L.next, menu)), menu, Get(L.list, menu)), menu, None)
  }

  lemma SpliceDone(L: Links, p: Id, menu: Id, kids: Forest, rest: Forest)
    requires kids.Node? && Distinct(Node(menu, kids, rest)) && Get(L.parent, menu) == Some(p)
    requires Seg(L, Get(L.list, menu), Some(p), kids, None) && Seg(L, Get(L.next, menu), Some(p), rest, None)
    ensures Seg(SpliceWrites(L, menu, Last(kids)), Some(menu), Some(p), Node(menu, Nil, Append(kids, rest)), None)
  {
    var last, next, list := Last(kids), Get(L.next, menu), Get(L.list, menu);
    LastIn(kids);
    var L1 := SetNext(L, last, next);
    var L2 := SetNext(L1, menu, list);
    SegRelink(L, list, Some(p), kids, None, next);
    SegSetNext(L, last, next, next, Some(p), rest, None);
    SegSetNext(L1, menu, list, list, Some(p), kids, next);
    SegSetNext(L1, menu, list, next, Some(p), rest, None);
    SegSetList(L2, menu, None, list, Some(p), kids, next);
    SegSetList(L2, menu, None, next, Some(p), rest, None);
    var L3 := SetList(L2, menu, None);
    SegAppend(L3, list, Some(p), kids, next, rest, None);
  }

  // ----- whole passes over one level -----

  /** A pass over the level `level` under `p`: `done` is behind it, `todo`, whose nodes have the
      parent `par`, is ahead, and nothing outside the level was written. */
  ghost predicate Pass(L0: Links, L: Links, level: Forest, first: Option<Id>, p: Id, done: Forest, menu: Option<Id>,
                       par: Option<Id>, todo: Forest) {
    && Distinct(level)
    && Level(L, first, p, done, menu, par, todo)
    && Split(Preorder(level), done, todo)
    && OnlyWithin(L0, L, Preorder(level))
  }

  lemma PassFacts(L0: Links, L: Links, level: Forest, first: Option<Id>, p: Id, done: Forest, menu: Option<Id>,
                  par: Option<Id>, todo: Forest)
    requires Pass(L0, L, level, first, p, done, menu, par, todo)
    ensures Distinct(todo) && Count(todo) <= Count(level)
    ensures menu.None? ==> todo.Nil?
    ensures menu.Some? ==> todo.Node? && todo.id == menu.value && Seg(L, menu, par, todo, None)
  {
    SplitFacts(level, Preorder(level), done, todo);
  }

  lemma PassFinalized(L0: Links, L: Links, L': Links, level: Forest, first: Option<Id>, p: Id, done: Forest,
                      menu: Id, par: Option<Id>, todo: Forest, todo': Forest)
    requires Pass(L0, L, level, first, p, done, Some(menu), par, todo)
    requires todo.Node? && Finalized(L, L', menu, par, todo, todo')
    ensures Pass(L0, L', level, first, p, done, Some(menu), par, todo') && Distinct(todo')
    ensures Count(todo') == Count(todo)
  {
    SplitFacts(level, Preorder(level), done, todo);
    ChildStep(L, L', first, p, done, par, todo, todo');
    OnlyWithinTrans(L0, L, L', Preorder(level), Preorder(todo));
    DistinctSame(todo, todo');
    CountIsLength(todo);
    CountIsLength(todo');
  }

  lemma PassAdvance(L0: Links, L: Links, level: Forest, first: Option<Id>, p: Id, done: Forest, menu: Id, todo: Forest)
    requires todo.Node? && Pass(L0, L, level, first, p, done, Some(menu), Some(p), todo)
    ensures Pass(L0, L, level, first, p, Snoc(done, todo), Get(L.next, menu), Some(p), todo.rest)
    ensures Count(todo.rest) < Count(todo)
  {
    SplitAdvance(Preorder(level), done, todo);
    LevelAdvance(L, first, p, done, Some(menu), todo);
  }

  lemma PassAbsorb(L0: Links, L: Links, level: Forest, first: Option<Id>, p: Id, done: Forest, menu: Id,
                   par: Option<Id>, todo: Forest)
    requires todo.Node? && Pass(L0, L, level, first, p, done, Some(menu), par, todo)
    ensures Pass(L0, SetParent(L, menu, Some(p)), level, first, p, Snoc(done, todo), Get(L.next, menu), par, todo.rest)
    ensures Count(todo.rest) < Count(todo)
    ensures Snoc(done, todo).Node? && Last(Snoc(done, todo)) == menu
  {
    SplitFacts(level, Preorder(level), done, todo);
    SplitAdvance(Preorder(level), done, todo);
    AbsorbStep(L, first, p, done, par, todo);
    LastOfSnoc(done, todo.id, todo.kids);
    OnlyWithinTrans(L0, L, SetParent(L, menu, Some(p)), Preorder(level), [menu]);
  }

  /** The children of `p` are done; its own siblings were not touched. */
  lemma ChildrenDone(L0: Links, L: Links, p: Id, par: Option<Id>, f: Forest, done: Forest, todo: Forest)
    requires f.Node? && f.id == p && Distinct(f) && Seg(L0, Some(p), par, f, None)
    requires Pass(L0, L, f.kids, Get(L0.list, p), p, done, None, Some(p), todo)
    ensures Finalized(L0, L, p, par, f, Node(p, done, f.rest))
  {
    assert SameAt(L0, L, p);
    SegOutside(L0, L, Preorder(f.kids), Get(L0.next, p), par, f.rest, None);
    OnlyWithinTrans(L0, L0, L, Preorder(f), Preorder(f.kids));
  }

  ghost function AbsorbLinks(L: Links, p: Id, done: Forest): Links {
    if done.Nil? then L else AbsorbWrites(L, p, Last(done))
  }

  lemma SiblingsSpell(L0: Links, L: Links, p: Id, par: Option<Id>, rest: Forest, done: Forest, menu: Option<Id>, todo: Forest)
    requires p !in Preorder(rest) && Get(L0.parent, p) == par && Get(L0.list, p).None?
    requires Pass(L0, L, rest, Get(L0.next, p), p, done, menu, par, todo)
    ensures Seg(AbsorbLinks(L, p, done), Some(p), par, Node(p, done, todo), None)
  {
    SplitFacts(rest, Preorder(rest), done, todo);
    assert SameAt(L0, L, p);
    if done.Node? {
      AbsorbDone(L, p, par, done, menu, todo);
    }
  }

  lemma SiblingsOnly(L0: Links, L: Links, p: Id, f: Forest, done: Forest, todo: Forest)
    requires f.Node? && f.id == p && OnlyWithin(L0, L, Preorder(f.rest)) && Split(Preorder(f.rest), done, todo)
    ensures OnlyWithin(L0, AbsorbLinks(L, p, done), Preorder(f))
  {
    OnlyWithinTrans(L0, L0, L, Preorder(f), Preorder(f.rest));
    if done.Node? {
      LastIn(done);
      OnlyWithinTrans(L0, L, AbsorbLinks(L, p, done), Preorder(f), [p, Last(done)]);
    }
  }

  /** Some siblings of `p` have moved below it, or none. */
  lemma SiblingsDone(L0: Links, L: Links, p: Id, par: Option<Id>, f: Forest, done: Forest, menu: Option<Id>, todo: Forest)
    requires f.Node? && f.id == p && f.kids.Nil? && Distinct(f) && Seg(L0, Some(p), par, f, None)
    requires Pass(L0, L, f.rest, Get(L0.next, p), p, done, menu, par, todo)
    ensures Finalized(L0, AbsorbLinks(L, p, done), p, par, f, Node(p, done, todo))
  {
    SiblingsSpell(L0, L, p, par, f.rest, done, menu, todo);
    SiblingsOnly(L0, L, p, f, done, todo);
    SiblingsOrder(p, f.rest, done, todo);
  }

  /** Moving siblings below the node in front of them keeps the order. */
  lemma SiblingsOrder(p: Id, rest: Forest, done: Forest, todo: Forest)
    requires Split(Preorder(rest), done, todo)
    ensures Preorder(Node(p, done, todo)) == Preorder(Node(p, Nil, rest))
  {
    InParts([p], Preorder(done), Preorder(todo), []);
    InParts([p], [], Preorder(rest), []);
  }

  lemma InParts(a: seq<Id>, b: seq<Id>, c: seq<Id>, d: seq<Id>)
    ensures a + b + c + d == a + (b + (c + d)) && a + b + c == a + (b + c) && a + [] == a && [] + c == c
  {
  }

  /** The children of `menu` have got a new parent and move up behind it. */
  lemma ChildrenMoved(L0: Links, L: Links, p: Id, menu: Id, f: Forest)
    requires f.Node? && f.id == menu && Distinct(f) && f.kids.Node? && Seg(L0, Some(menu), Some(p), f, None)
    requires Seg(L, Get(L0.list, menu), Some(p), f.kids, None) && OnlyWithin(L0, L, Preorder(f.kids))
    ensures Finalized(L0, SpliceWrites(L, menu, Last(f.kids)), menu, Some(p), f, Node(menu, Nil, Append(f.kids, f.rest)))
  {
    MovedSpell(L0, L, p, menu, f);
    MovedOrder(menu, f.kids, f.rest);
    MovedOnly(L0, L, menu, f);
  }

  lemma MovedSpell(L0: Links, L: Links, p: Id, menu: Id, f: Forest)
    requires f.Node? && f.id == menu && Distinct(f) && f.kids.Node? && Seg(L0, Some(menu), Some(p), f, None)
    requires Seg(L, Get(L0.list, menu), Some(p), f.kids, None) && OnlyWithin(L0, L, Preorder(f.kids))
    ensures Seg(SpliceWrites(L, menu, Last(f.kids)), Some(menu), Some(p), Node(menu, Nil, Append(f.kids, f.rest)), None)
  {
    assert SameAt(L0, L, menu);
    SegOutside(L0, L, Preorder(f.kids), Get(L0.next, menu), Some(p), f.rest, None);
    SpliceDone(L, p, menu, f.kids, f.rest);
  }

  lemma MovedOrder(menu: Id, kids: Forest, rest: Forest)
    ensures Preorder(Node(menu, Nil, Append(kids, rest))) == Preorder(Node(menu, kids, rest))
  {
    PreorderAppend(kids, rest);
    assert [menu] + (Preorder(kids) + Preorder(rest)) == [menu] + Preorder(kids) + Preorder(rest);
  }

  lemma MovedOnly(L0: Links, L: Links, menu: Id, f: Forest)
    requires f.Node? && f.id == menu && f.kids.Node? && OnlyWithin(L0, L, Preorder(f.kids))
    ensures OnlyWithin(L0, SpliceWrites(L, menu, Last(f.kids)), Preorder(f))
  {
    LastIn(f.kids);
    OnlyWithinTrans(L0, L0, L, Preorder(f), Preorder(f.kids));
    OnlyWithinTrans(L0, L, SpliceWrites(L, menu, Last(f.kids)), Preorder(f), [menu, Last(f.kids)]);
  }

  class Menus {
    var L: Links
    const m: Tests

    constructor (L: Links, m: Tests)
      ensures this.L == L && this.m == m
    {
      this.L, this.m := L, m;
    }

    /** menu_finalize: whatever the dependency tests answer, the pointers spell exactly the tree that
        is specified, with the same nodes in the same order and correct parent fields, written only
        within `f`. */
    method Finalize(p: Id, ghost par: Option<Id>, ghost f: Forest) returns (ghost f': Forest)
      requires f.Node? && f.id == p && Distinct(f) && Seg(L, Some(p), par, f, None)
      modifies this
      ensures Finalized(old(L), L, p, par, f, f') && f' == Final(m, f)
      decreases Count(f), 1
    {
      ghost var f1 := f;
      if Get(L.list, p).Some? {
        f1 := FinalizeChildren(p, par, f);
      } else if m.hasSymbol(p) {
        f1 := Absorb(p, par, f);
      }
      DistinctSame(f, f1);
      ghost var L1 := L;
      f' := Flatten(p, par, f1);
      FlatKidsIs(m, Absorbed(m, f).kids);
      OnlyWithinTrans(old(L), L1, L, Preorder(f), Preorder(f1));
    }

    /** menu.c:423-424: every child in turn; a child may swallow later ones. */
    method FinalizeChildren(p: Id, ghost par: Option<Id>, ghost f: Forest) returns (ghost f': Forest)
      requires f.Node? && f.id == p && Distinct(f) && Seg(L, Some(p), par, f, None)
      modifies this
      ensures Finalized(old(L), L, p, par, f, f')
      ensures f' == Node(p, Deep(m, AbsorbedLevel(m, f.kids)), f.rest)
      decreases Count(f), 0
    {
      var menu := Get(L.list, p);
      ghost var first, done, todo := menu, Nil, f.kids;
      while menu.Some?
        invariant Pass(old(L), L, f.kids, first, p, done, menu, Some(p), todo)
        invariant Append(done, Deep(m, AbsorbedLevel(m, todo))) == Deep(m, AbsorbedLevel(m, f.kids))
        decreases Count(todo)
      {
        ghost var L1 := L;
        PassFacts(old(L), L, f.kids, first, p, done, menu, Some(p), todo);
        ghost var todo' := Finalize(menu.value, Some(p), todo);
        PassFinalized(old(L), L1, L, f.kids, first, p, done, menu.value, Some(p), todo, todo');
        PassAdvance(old(L), L, f.kids, first, p, done, menu.value, todo');
        LevelStep(m, done, todo);
        done, todo := Snoc(done, todo'), todo'.rest;
        menu := Get(L.next, menu.value);
      }
      f' := Node(p, done, f.rest);
      PassFacts(old(L), L, f.kids, first, p, done, menu, Some(p), todo);
      AppendNil(done);
      ChildrenDone(old(L), L, p, par, f, done, todo);
    }

    /** menu.c:452-494: the consecutive later siblings that depend on the symbol of `p` become
        its children: the longest run of siblings that pass the test. */
    method Absorb(p: Id, ghost par: Option<Id>, ghost f: Forest) returns (ghost f': Forest)
      requires f.Node? && f.id == p && f.kids.Nil? && Distinct(f) && Seg(L, Some(p), par, f, None)
      modifies this
      ensures Finalized(old(L), L, p, par, f, f')
      ensures var run := AbsorbedRun(m, p, f.rest); f' == Node(p, Deep(m, run.0), run.1)
      ensures AllDepend(m, p, f'.kids) && Stopped(m, p, f'.rest)
      decreases Count(f), 0
    {
      var menu, last := Get(L.next, p), None;
      ghost var first, done, todo := menu, Nil, f.rest;
      ghost var run := AbsorbedRun(m, p, f.rest);
      while menu.Some?
        invariant Pass(old(L), L, f.rest, first, p, done, menu, par, todo)
        invariant Append(done, Deep(m, AbsorbedRun(m, p, todo).0)) == Deep(m, run.0) && AbsorbedRun(m, p, todo).1 == run.1
        invariant last == if done.Nil? then None else Some(Last(done))
        decreases Count(todo)
      {
        PassFacts(old(L), L, f.rest, first, p, done, menu, par, todo);
        if !m.depends(p, menu.value) {
          break;
        }
        ghost var L1 := L;
        ghost var todo' := Finalize(menu.value, par, todo);
        PassFinalized(old(L), L1, L, f.rest, first, p, done, menu.value, par, todo, todo');
        PassAbsorb(old(L), L, f.rest, first, p, done, menu.value, par, todo');
        RunStep(m, p, done, todo);
        done, todo := Snoc(done, todo'), todo'.rest;
        L := SetParent(L, menu.value, Some(p));
        last := menu;
        menu := Get(L.next, menu.value);
      }
      f' := Node(p, done, todo);
      PassFacts(old(L), L, f.rest, first, p, done, menu, par, todo);
      AppendNil(done);
      RunStops(m, p, f.rest);
      AllDependDeep(m, p, run.0);
      SiblingsDone(old(L), L, p, par, f, done, menu, todo);
      if last.Some? {
        L := AbsorbWrites(L, p, last.value);
      }
    }

    /** menu.c:498-577: children without prompt text hand their own children to `p`. */
    method Flatten(p: Id, ghost par: Option<Id>, ghost f: Forest) returns (ghost f': Forest)
      requires f.Node? && f.id == p && Distinct(f) && Seg(L, Some(p), par, f, None)
      modifies this
      ensures Finalized(old(L), L, p, par, f, f') && f' == Node(p, Flattened(m, f.kids), f.rest)
    {
      var menu := Get(L.list, p);
      ghost var first, done, todo := menu, Nil, f.kids;
      while menu.Some?
        invariant Pass(old(L), L, f.kids, first, p, done, menu, Some(p), todo)
        invariant Append(done, Flattened(m, todo)) == Flattened(m, f.kids)
        decreases Count(todo)
      {
        ghost var L1 := L;
        PassFacts(old(L), L, f.kids, first, p, done, menu, Some(p), todo);
        ghost var todo' := FlattenOne(p, menu.value, todo);
        PassFinalized(old(L), L1, L, f.kids, first, p, done, menu.value, Some(p), todo, todo');
        PassAdvance(old(L), L, f.kids, first, p, done, menu.value, todo');
        FlattenStep(m, done, todo);
        done, todo := Snoc(done, todo'), todo'.rest;
        menu := Get(L.next, menu.value);
      }
      f' := Node(p, done, f.rest);
      PassFacts(old(L), L, f.kids, first, p, done, menu, Some(p), todo);
      AppendNil(done);
      ChildrenDone(old(L), L, p, par, f, done, todo);
    }

    /** menu.c:567-576: the children of a node without text move up, directly behind it; a node with
        text keeps them. */
    method FlattenOne(p: Id, menu: Id, ghost f: Forest) returns (ghost f': Forest)
      requires f.Node? && f.id == menu && Distinct(f) && Seg(L, Some(menu), Some(p), f, None)
      modifies this
      ensures Finalized(old(L), L, menu, Some(p), f, f') && f' == FlattenedOne(m, f)
    {
      f' := f;
      if Get(L.list, menu).Some? && !m.hasText(menu) {
        var last := Adopt(p, menu, f.kids);
        ChildrenMoved(old(L), L, p, menu, f);
        L := SpliceWrites(L, menu, last);
        f' := Node(menu, Nil, Append(f.kids, f.rest));
      }
    }

    /** menu.c:568-572: every child of `menu` gets the parent `p`; the last one is returned. */
    method Adopt(p: Id, menu: Id, ghost kids: Forest) returns (last: Id)
      requires Get(L.list, menu).Some?
      requires Distinct(kids) && Seg(L, Get(L.list, menu), Some(menu), kids, None)
      modifies this
      ensures kids.Node? && last == Last(kids)
      ensures Seg(L, old(Get(L.list, menu)), Some(p), kids, None)
      ensures OnlyWithin(old(L), L, Preorder(kids))
    {
      last := Get(L.list, menu).value;
      ghost var first, done, todo := Get(L.list, menu), Nil, kids;
      while true
        invariant todo.Node? && Pass(old(L), L, kids, first, p, done, Some(last), Some(menu), todo)
        invariant Append(done, todo) == kids
        decreases Count(todo)
      {
        PassAbsorb(old(L), L, kids, first, p, done, last, Some(menu), todo);
        AppendAssoc(done, Node(todo.id, todo.kids, Nil), todo.rest);
        L := SetParent(L, last, Some(p));
        done, todo := Snoc(done, todo), todo.rest;
        PassFacts(old(L), L, kids, first, p, done, Get(L.next, last), Some(menu), todo);
        if Get(L.next, last).None? {
          break;
        }
        last := Get(L.next, last).value;
      }
      AppendNil(done);
    }
  }

  // ----- the walk of conf_write -----

  /** The nodes above the one the walk stands at, each with the siblings that follow it. */
  datatype Above = Root(id: Id) | Below(id: Id, rest: Forest, above: Above)

  ghost predicate Climb(L: Links, a: Above) {
    match a
    case Root(r) => Get(L.next, r).None? && Get(L.parent, r).None?
    case Below(q, rest, above) =>
      && Get(L.parent, q) == Some(above.id)
      && Seg(L, Get(L.next, q), Some(above.id), rest, None)
      && Climb(L, above)
  }

  /** The nodes of `f` in pre-order, then `tail`. */
  ghost function Onto(f: Forest, tail: seq<Id>): seq<Id> {
    if f.Nil? then tail else [f.id] + Onto(f.kids, Onto(f.rest, tail))
  }

  lemma {:induction false} OntoIs(f: Forest, tail: seq<Id>)
    ensures Onto(f, tail) == Preorder(f) + tail
  {
    if f.Node? {
      OntoIs(f.rest, tail);
      OntoIs(f.kids, Onto(f.rest, tail));
      InParts([f.id], Preorder(f.kids), Preorder(f.rest), tail);
    }
  }

  /** What is still to be visited. */
  ghost function Left(here: Forest, a: Above): seq<Id>
    decreases a
  {
    Onto(here, if a.Root? then [] else Left(a.rest, a.above))
  }

  /** Standing at `menu`, the first node of `here`, under the node of `a`. */
  ghost predicate Standing(L: Links, menu: Option<Id>, here: Forest, a: Above) {
    && Climb(L, a)
    && (menu.None? ==> Left(here, a) == [])
    && (menu.Some? ==> here.Node? && Seg(L, menu, Some(a.id), here, None))
  }

  /** confdata.c:817-822: up to the nearest node above with a later sibling. */
  method ClimbUp(L: Links, ghost a: Above, up: Id) returns (menu: Option<Id>, ghost here': Forest, ghost a': Above)
    requires Climb(L, a) && a.id == up
    ensures Standing(L, menu, here', a') && Left(here', a') == Left(Nil, a)
  {
    menu, here', a' := Some(up), Nil, a;
    while menu.Some?
      invariant Climb(L, a') && Left(Nil, a') == Left(Nil, a)
      invariant menu == Some(a'.id) || (menu.None? && a'.Root?)
      decreases a', menu.Some?
    {
      var next := Get(L.next, menu.value);
      if next.Some? {
        here', a' := a'.rest, a'.above;
        return next, here', a';
      }
      menu := Get(L.parent, menu.value);
      if a'.Below? {
        a' := a'.above;
      }
    }
  }

  /** confdata.c:810-822: from one node to the next, null after the last. */
  method NextNode(L: Links, at: Id, ghost here: Forest, ghost a: Above)
    returns (menu: Option<Id>, ghost here': Forest, ghost a': Above)
    requires Standing(L, Some(at), here, a)
    ensures Standing(L, menu, here', a') && Left(here, a) == [at] + Left(here', a')
  {
    ghost var below := Below(at, here.rest, a);
    assert Left(here.kids, below) == Onto(here.kids, Left(here.rest, a));
    assert Seg(L, Get(L.list, at), Some(at), here.kids, None);
    assert Seg(L, Get(L.next, at), Some(a.id), here.rest, None);
    if Get(L.list, at).Some? {
      return Get(L.list, at), here.kids, below;
    }
    if Get(L.next, at).Some? {
      return Get(L.next, at), here.rest, a;
    }
    menu, here', a' := ClimbUp(L, a, Get(L.parent, at).value);
  }

  /** The walk of conf_write: every node below the root exactly once, in pre-order, and it stops. */
  method Walk(L: Links, root: Id, ghost kids: Forest) returns (visited: seq<Id>)
    requires Get(L.next, root).None? && Get(L.parent, root).None?
    requires Seg(L, Get(L.list, root), Some(root), kids, None)
    ensures visited == Preorder(kids)
  {
    var menu := Get(L.list, root);
    ghost var here, a := kids, Root(root);
    OntoIs(kids, []);
    visited := [];
    while menu.Some?
      invariant Standing(L, menu, here, a)
      invariant visited + Left(here, a) == Preorder(kids)
      decreases |Left(here, a)|
    {
      visited := visited + [menu.value];
      menu, here, a := NextNode(L, menu.value, here, a);
    }
  }

  /** menu_finalize on the root menu, then the walk: the nodes come out in the order in which the
      Kconfig files declared them, each exactly once; and every node is a child of the nearest node
      with a text above it in the tree with automatic submenus, or of the root, and no node without
      a text has children. */
  method FinalizeAndWalk(menus: Menus, root: Id, ghost f: Forest) returns (visited: seq<Id>)
    requires f.Node? && f.id == root && f.rest.Nil? && Distinct(f) && Seg(menus.L, Some(root), None, f, None)
    modifies menus
    ensures visited == Preorder(f.kids) && NoDup(visited)
    ensures Seg(menus.L, Some(root), None, Final(menus.m, f), None) && Flat(menus.m.hasText, Final(menus.m, f).kids)
    ensures forall x :: x in visited ==>
              Get(menus.L.parent, x) == Some(TextAbove(menus.m, AbsorbedLevel(menus.m, f.kids), root, x))
  {
    ghost var f' := menus.Finalize(root, None, f);
    assert Seg(menus.L, Get(menus.L.next, root), None, f'.rest, None);
    visited := Walk(menus.L, root, f'.kids);
    assert Preorder(f') == [root] + Preorder(f'.kids);
    assert Preorder(f) == [root] + Preorder(f.kids);
    assert visited == Preorder(f)[1..];
    DistinctMeans(f.kids);
    ghost var kids := Absorbed(menus.m, f).kids;
    assert kids == AbsorbedLevel(menus.m, f.kids);
    FlatKidsFlat(menus.m, kids);
    forall x | x in visited ensures Get(menus.L.parent, x) == Some(TextAbove(menus.m, kids, root, x)) {
      SegParent(menus.L, Get(menus.L.list, root), root, f'.kids, None, x);
      ParentIsTextAbove(menus.m, kids, root, x);
    }
  }
}
