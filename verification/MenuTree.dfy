/** Menu nodes linked by next, list and parent pointers (kconf/expr.h, struct menu), the trees
    these pointers spell, and what single pointer writes do to them. */
module MenuTree {
  import opened Common

  type Id = nat

  /** The next, list and parent pointers of all menu nodes; a missing entry is a null pointer. */
  datatype Links = Links(next: map<Id, Id>, list: map<Id, Id>, parent: map<Id, Id>)

  function Get(m: map<Id, Id>, x: Id): Option<Id> {
    if x in m then Some(m[x]) else None
  }

  function Set(m: map<Id, Id>, x: Id, v: Option<Id>): (r: map<Id, Id>)
    ensures Get(r, x) == v && forall y :: y != x ==> Get(r, y) == Get(m, y)
  {
    if v.Some? then m[x := v.value] else m - {x}
  }

  // ----- what the pointers spell -----

  /** A chain of siblings, each with the chain of its children. */
  datatype Forest = Nil | Node(id: Id, kids: Forest, rest: Forest)

  ghost function Count(f: Forest): nat {
    if f.Nil? then 0 else 1 + Count(f.kids) + Count(f.rest)
  }

  /** The nodes in the order of the Kconfig files. */
  ghost function Preorder(f: Forest): seq<Id> {
    if f.Nil? then [] else [f.id] + Preorder(f.kids) + Preorder(f.rest)
  }

  ghost function Append(a: Forest, b: Forest): Forest {
    if a.Nil? then b else a.(rest := Append(a.rest, b))
  }

  ghost function Last(a: Forest): Id
    requires a.Node?
  {
    if a.rest.Nil? then a.id else Last(a.rest)
  }

  /** Following `next` from `first` spells `f`, with `after` behind its last node; every
      node's parent field is `par` here and its own parent in the levels below. */
  ghost predicate Seg(L: Links, first: Option<Id>, par: Option<Id>, f: Forest, after: Option<Id>)
    decreases f
  {
    match f
    case Nil => first == after
    case Node(x, kids, rest) =>
      && first == Some(x)
      && Get(L.parent, x) == par
      && Seg(L, Get(L.list, x), Some(x), kids, None)
      && Seg(L, Get(L.next, x), par, rest, after)
  }

  /** No node occurs twice. */
  ghost predicate Distinct(f: Forest) {
    f.Nil? || (
      && f.id !in Preorder(f.kids) && f.id !in Preorder(f.rest)
      && (forall x :: x in Preorder(f.kids) ==> x !in Preorder(f.rest))
      && Distinct(f.kids) && Distinct(f.rest))
  }

  ghost predicate SameAt(L: Links, L': Links, x: Id) {
    Get(L'.next, x) == Get(L.next, x) && Get(L'.list, x) == Get(L.list, x) && Get(L'.parent, x) == Get(L.parent, x)
  }

  /** Nothing outside `ids` was written. */
  ghost predicate OnlyWithin(L: Links, L': Links, ids: seq<Id>) {
    forall x {:trigger SameAt(L, L', x)} :: x !in ids ==> SameAt(L, L', x)
  }

  // ----- lemmas about forests -----

  lemma {:induction false} PreorderAppend(a: Forest, b: Forest)
    ensures Preorder(Append(a, b)) == Preorder(a) + Preorder(b)
  {
    if a.Node? {
      PreorderAppend(a.rest, b);
    }
  }

  lemma {:induction false} AppendAssoc(a: Forest, b: Forest, c: Forest)
    ensures Append(Append(a, b), c) == Append(a, Append(b, c))
  {
    if a.Node? {
      AppendAssoc(a.rest, b, c);
    }
  }

  lemma {:induction false} AppendNil(a: Forest)
    ensures Append(a, Nil) == a
  {
    if a.Node? {
      AppendNil(a.rest);
    }
  }

  lemma {:induction false} LastOfSnoc(a: Forest, x: Id, k: Forest)
    ensures Append(a, Node(x, k, Nil)).Node? && Last(Append(a, Node(x, k, Nil))) == x
  {
    if a.Node? {
      LastOfSnoc(a.rest, x, k);
    }
  }

  lemma {:induction false} LastIn(a: Forest)
    requires a.Node?
    ensures Last(a) in Preorder(a)
  {
    if a.rest.Node? {
      LastIn(a.rest);
    }
  }

  lemma {:induction false} CountIsLength(f: Forest)
    ensures Count(f) == |Preorder(f)|
  {
    if f.Node? {
      CountIsLength(f.kids);
      CountIsLength(f.rest);
    }
  }

  lemma NoDupParts(a: seq<Id>, b: seq<Id>)
    requires NoDup(a + b)
    ensures NoDup(a) && NoDup(b) && forall x :: x in a ==> x !in b
  {
    assert forall i :: 0 <= i < |a| ==> (a + b)[i] == a[i];
    assert forall j :: 0 <= j < |b| ==> (a + b)[|a| + j] == b[j];
    forall x | x in a ensures x !in b {
      var i :| 0 <= i < |a| && a[i] == x;
      assert (a + b)[i] == x;
    }
  }

  lemma NoDupJoin(a: seq<Id>, b: seq<Id>)
    requires NoDup(a) && NoDup(b) && forall x :: x in a ==> x !in b
    ensures NoDup(a + b)
  {
    forall i, j | 0 <= i < j < |a + b| ensures (a + b)[i] != (a + b)[j] {
      if i < |a| <= j {
        assert a[i] in a && b[j - |a|] in b;
      }
    }
  }

  lemma {:induction false} DistinctMeans(f: Forest)
    ensures Distinct(f) <==> NoDup(Preorder(f))
  {
    if f.Node? {
      var x, k, r := [f.id], Preorder(f.kids), Preorder(f.rest);
      DistinctMeans(f.kids);
      DistinctMeans(f.rest);
      if Distinct(f) {
        NoDupJoin(x, k);
        NoDupJoin(x + k, r);
      } else if NoDup(x + k + r) {
        NoDupParts(x + k, r);
        NoDupParts(x, k);
      }
    }
  }

  /** Two forests that spell the nodes of a duplicate-free one. */
  lemma DistinctParts(f: Forest, a: Forest, b: Forest)
    requires Distinct(f) && Preorder(f) == Preorder(a) + Preorder(b)
    ensures Distinct(a) && Distinct(b) && forall x :: x in Preorder(a) ==> x !in Preorder(b)
  {
    DistinctMeans(f);
    NoDupParts(Preorder(a), Preorder(b));
    DistinctMeans(a);
    DistinctMeans(b);
  }

  lemma DistinctSame(f: Forest, g: Forest)
    requires Distinct(f) && Preorder(g) == Preorder(f)
    ensures Distinct(g)
  {
    DistinctMeans(f);
    DistinctMeans(g);
  }

  // ----- lemmas about segments -----

  lemma {:induction false} SegFrame(L: Links, L': Links, first: Option<Id>, par: Option<Id>, f: Forest, after: Option<Id>)
    requires Seg(L, first, par, f, after) && forall x :: x in Preorder(f) ==> SameAt(L, L', x)
    ensures Seg(L', first, par, f, after)
    decreases f
  {
    if f.Node? {
      assert f.id in Preorder(f) && SameAt(L, L', f.id);
      SegFrame(L, L', Get(L.list, f.id), Some(f.id), f.kids, None);
      SegFrame(L, L', Get(L.next, f.id), par, f.rest, after);
    }
  }

  lemma SegOutside(L: Links, L': Links, ids: seq<Id>, first: Option<Id>, par: Option<Id>, f: Forest, after: Option<Id>)
    requires Seg(L, first, par, f, after) && OnlyWithin(L, L', ids) && forall x :: x in Preorder(f) ==> x !in ids
    ensures Seg(L', first, par, f, after)
  {
    forall x | x in Preorder(f) ensures SameAt(L, L', x) {
    }
    SegFrame(L, L', first, par, f, after);
  }

  lemma {:induction false} SegAppend(L: Links, first: Option<Id>, par: Option<Id>, a: Forest, mid: Option<Id>,
                                     b: Forest, after: Option<Id>)
    requires Seg(L, first, par, a, mid) && Seg(L, mid, par, b, after)
    ensures Seg(L, first, par, Append(a, b), after)
    decreases a
  {
    if a.Node? {
      SegAppend(L, Get(L.next, a.id), par, a.rest, mid, b, after);
    }
  }

  lemma {:induction false} SegLast(L: Links, first: Option<Id>, par: Option<Id>, a: Forest, after: Option<Id>)
    requires a.Node? && Seg(L, first, par, a, after)
    ensures Get(L.next, Last(a)) == after
    decreases a
  {
    if a.rest.Node? {
      SegLast(L, Get(L.next, a.id), par, a.rest, after);
    }
  }

  function SetNext(L: Links, x: Id, v: Option<Id>): Links {
    L.(next := Set(L.next, x, v))
  }

  function SetList(L: Links, x: Id, v: Option<Id>): Links {
    L.(list := Set(L.list, x, v))
  }

  function SetParent(L: Links, x: Id, v: Option<Id>): Links {
    L.(parent := Set(L.parent, x, v))
  }

  lemma SegSetParent(L: Links, x: Id, v: Option<Id>, first: Option<Id>, par: Option<Id>, f: Forest, after: Option<Id>)
    requires Seg(L, first, par, f, after) && x !in Preorder(f)
    ensures Seg(SetParent(L, x, v), first, par, f, after)
  {
    SegFrame(L, SetParent(L, x, v), first, par, f, after);
  }

  lemma SegSetNext(L: Links, x: Id, v: Option<Id>, first: Option<Id>, par: Option<Id>, f: Forest, after: Option<Id>)
    requires Seg(L, first, par, f, after) && x !in Preorder(f)
    ensures Seg(SetNext(L, x, v), first, par, f, after)
  {
    SegFrame(L, SetNext(L, x, v), first, par, f, after);
  }

  lemma SegSetList(L: Links, x: Id, v: Option<Id>, first: Option<Id>, par: Option<Id>, f: Forest, after: Option<Id>)
    requires Seg(L, first, par, f, after) && x !in Preorder(f)
    ensures Seg(SetList(L, x, v), first, par, f, after)
  {
    SegFrame(L, SetList(L, x, v), first, par, f, after);
  }

  /** The last node of a segment gets another successor. */
  lemma {:induction false} SegRelink(L: Links, first: Option<Id>, par: Option<Id>, a: Forest, after: Option<Id>, v: Option<Id>)
    requires a.Node? && Seg(L, first, par, a, after) && Distinct(a)
    ensures Seg(SetNext(L, Last(a), v), first, par, a, v)
    decreases a
  {
    LastIn(a);
    if a.rest.Node? {
      LastIn(a.rest);
      SegRelink(L, Get(L.next, a.id), par, a.rest, after, v);
    }
    SegSetNext(L, Last(a), v, Get(L.list, a.id), Some(a.id), a.kids, None);
  }

  // ----- flattening -----

  /** No node without a prompt text has children. */
  ghost predicate Flat(hasText: Id -> bool, f: Forest) {
    f.Nil? || ((hasText(f.id) || f.kids.Nil?) && Flat(hasText, f.kids) && Flat(hasText, f.rest))
  }

  /** The same, except perhaps for the nodes of the top level. */
  ghost predicate FlatBelow(hasText: Id -> bool, f: Forest) {
    f.Nil? || (Flat(hasText, f.kids) && FlatBelow(hasText, f.rest))
  }

  lemma {:induction false} FlatIsFlatBelow(hasText: Id -> bool, f: Forest)
    requires Flat(hasText, f)
    ensures FlatBelow(hasText, f)
  {
    if f.Node? {
      FlatIsFlatBelow(hasText, f.rest);
    }
  }

  lemma {:induction false} FlatBelowAppend(hasText: Id -> bool, a: Forest, b: Forest)
    requires FlatBelow(hasText, a) && FlatBelow(hasText, b)
    ensures FlatBelow(hasText, Append(a, b))
  {
    if a.Node? {
      FlatBelowAppend(hasText, a.rest, b);
    }
  }

  // ----- one level in the middle of a loop -----

  /** The level `done + todo` under `p`, the loop standing at `menu`, the first node of `todo`. */
  ghost predicate Level(L: Links, first: Option<Id>, p: Id, done: Forest, menu: Option<Id>, par: Option<Id>, todo: Forest) {
    Seg(L, first, Some(p), done, menu) && Seg(L, menu, par, todo, None)
  }

  /** `all` is still spelt, in order, by what is done and what is to do. */
  ghost predicate Split(all: seq<Id>, done: Forest, todo: Forest) {
    all == Preorder(done) + Preorder(todo)
  }

  lemma SplitFacts(f: Forest, all: seq<Id>, done: Forest, todo: Forest)
    requires Distinct(f) && all == Preorder(f) && Split(all, done, todo)
    ensures Distinct(done) && Distinct(todo) && Count(done) + Count(todo) == Count(f)
    ensures forall x :: x in Preorder(done) ==> x in all && x !in Preorder(todo)
    ensures forall x :: x in Preorder(todo) ==> x in all && x !in Preorder(done)
  {
    DistinctParts(f, done, todo);
    SplitCount(f, done, todo);
    var d, t := Preorder(done), Preorder(todo);
    assert forall x :: x in d + t <==> x in d || x in t;
  }

  lemma SplitCount(f: Forest, done: Forest, todo: Forest)
    requires Split(Preorder(f), done, todo)
    ensures Count(done) + Count(todo) == Count(f)
  {
    CountIsLength(f);
    CountIsLength(done);
    CountIsLength(todo);
  }

  /** The first node of `todo`, with its children, joins `done`. */
  lemma SplitAdvance(all: seq<Id>, done: Forest, todo: Forest)
    requires todo.Node? && Split(all, done, todo)
    ensures Split(all, Append(done, Node(todo.id, todo.kids, Nil)), todo.rest)
    ensures Count(todo.rest) < Count(todo)
  {
    PreorderAppend(done, Node(todo.id, todo.kids, Nil));
  }

  lemma LevelAdvance(L: Links, first: Option<Id>, p: Id, done: Forest, menu: Option<Id>, todo: Forest)
    requires todo.Node? && Level(L, first, p, done, menu, Some(p), todo)
    ensures Level(L, first, p, Append(done, Node(todo.id, todo.kids, Nil)), Get(L.next, todo.id), Some(p), todo.rest)
  {
    SegAppend(L, first, Some(p), done, menu, Node(todo.id, todo.kids, Nil), Get(L.next, todo.id));
  }

  lemma OnlyWithinTrans(L: Links, L1: Links, L2: Links, ids: seq<Id>, more: seq<Id>)
    requires OnlyWithin(L, L1, ids) && OnlyWithin(L1, L2, more) && forall x :: x in more ==> x in ids
    ensures OnlyWithin(L, L2, ids)
  {
    forall x | x !in ids ensures SameAt(L, L2, x) {
      assert SameAt(L, L1, x) && SameAt(L1, L2, x);
    }
  }

  /** What finalising the node `p`, whose own chain of siblings is `f`, promises. */
  ghost predicate Finalized(L: Links, L': Links, p: Id, par: Option<Id>, f: Forest, f': Forest) {
    && f'.Node? && f'.id == p
    && Seg(L', Some(p), par, f', None)
    && Preorder(f') == Preorder(f)
    && OnlyWithin(L, L', Preorder(f))
  }
}
