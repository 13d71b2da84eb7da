/** Fairness of the deficit round robin over whole runs. */
module FqFair {
  import opened Common
  import opened FqState
  import opened FqSteps
  import opened FqSchedule

  /** Bytes sent from each flow so far, and quanta granted to it, in bytes. */
  datatype Ledger = Ledger(sent: FlowId -> int, granted: FlowId -> int)

  const EmptyLedger := Ledger(f => 0, f => 0)

  function Grant(l: Ledger, f: FlowId, n: int): Ledger {
    l.(granted := g => if g == f then l.granted(g) + n else l.granted(g))
  }

  function Send(l: Ledger, f: FlowId, n: int): Ledger {
    l.(sent := g => if g == f then l.sent(g) + n else l.sent(g))
  }

  // ----- order in a list -----

  /** `a` stands before `b`. */
  predicate Before(l: seq<FlowId>, a: FlowId, b: FlowId) {
    l != [] && if l[0] == a then b in l[1..] else l[0] != b && Before(l[1..], a, b)
  }

  lemma {:induction false} BeforeAppend(l: seq<FlowId>, x: FlowId, a: FlowId, b: FlowId)
    requires a != b
    ensures x != a && x != b ==> Before(l + [x], a, b) == Before(l, a, b)
    ensures x == b && a in l && b !in l ==> Before(l + [x], a, b)
    ensures x == a && a !in l ==> !Before(l + [x], a, b)
  {
    if l == [] {
      assert l + [x] == [x];
    } else {
      assert (l + [x])[1..] == l[1..] + [x];
      BeforeAppend(l[1..], x, a, b);
    }
  }

  lemma {:induction false} BeforeWithout(l: seq<FlowId>, x: FlowId, a: FlowId, b: FlowId)
    requires x != a && x != b && a != b
    ensures Before(Without(l, x), a, b) == Before(l, a, b)
  {
    if l != [] && l[0] != x {
      assert ([l[0]] + Without(l[1..], x))[1..] == Without(l[1..], x);
      BeforeWithout(l[1..], x, a, b);
    }
  }

  // ----- what a step keeps of two contending flows -----

  ghost predicate InOld(s: State, t: TinId, f: FlowId) {
    t in s.tins && f in s.tins[t].oldFlows && f in s.flows
  }

  /** Two flows that are both backlogged among the old flows of `t`. */
  ghost predicate Contend(s: State, t: TinId, a: FlowId, b: FlowId) {
    a != b && InOld(s, t, a) && InOld(s, t, b) && s.flows[a].queue != [] && s.flows[b].queue != []
  }

  /** What a flow has been granted and has not used. */
  ghost function Credit(s: State, l: Ledger, f: FlowId): int
    requires f in s.flows
  {
    l.sent(f) + s.flows[f].deficit - l.granted(f)
  }

  /** The lead of `a` over `b` in grants, less the grant `b` has yet to get in this round. */
  ghost function Lead(c: Config, s: State, l: Ledger, t: TinId, a: FlowId, b: FlowId): int
    requires t in s.tins
  {
    l.granted(a) - l.granted(b) - if Before(s.tins[t].oldFlows, b, a) then c.quantum else 0
  }

  /** Both are still old flows, with the same credit each and the same lead. */
  ghost predicate KeepsPace(c: Config, s: State, l: Ledger, s': State, l': Ledger, t: TinId, a: FlowId, b: FlowId)
    requires InOld(s, t, a) && InOld(s, t, b)
  {
    && InOld(s', t, a) && InOld(s', t, b)
    && Credit(s', l', a) == Credit(s, l, a) && Credit(s', l', b) == Credit(s, l, b)
    && Lead(c, s', l', t, a, b) == Lead(c, s, l, t, a, b)
  }

  /** A replenished flow was first and becomes last. */
  lemma ReplenishOrder(tn: Tin, f: FlowId, a: FlowId, b: FlowId)
    requires Chained(tn) && IsHead(tn, f) && a != b && a in tn.oldFlows && b in tn.oldFlows
    ensures var rest := Without(tn.oldFlows, f);
            && (f != a && f != b ==> Before(rest + [f], b, a) == Before(tn.oldFlows, b, a))
            && (f == a ==> !Before(tn.oldFlows, b, a) && Before(rest + [f], b, a))
            && (f == b ==> Before(tn.oldFlows, b, a) && !Before(rest + [f], b, a))
  {
    HeadMoves(tn, f);
    BeforeAppend(Without(tn.oldFlows, f), f, b, a);
    if f != a && f != b {
      BeforeWithout(tn.oldFlows, f, b, a);
    }
  }

  lemma ReplenishKeepsPace(c: Config, s: State, l: Ledger, t: TinId, f: FlowId, a: FlowId, b: FlowId)
    requires t in s.tins && Chained(s.tins[t]) && IsHead(s.tins[t], f) && f in s.flows
    requires a != b && InOld(s, t, a) && InOld(s, t, b)
    ensures KeepsPace(c, s, l, Replenish(c, s, t, f), Grant(l, f, c.quantum), t, a, b)
  {
    ReplenishOrder(s.tins[t], f, a, b);
  }

  lemma MoveKeepsPace(c: Config, s: State, l: Ledger, t: TinId, f: FlowId, a: FlowId, b: FlowId)
    requires t in s.tins && f in s.flows && f != a && f != b
    requires a != b && InOld(s, t, a) && InOld(s, t, b)
    ensures KeepsPace(c, s, l, MoveToOld(s, t, f), l, t, a, b)
    ensures KeepsPace(c, s, l, Unlink(s, t, f), l, t, a, b)
  {
    BeforeAppend(Without(s.tins[t].oldFlows, f), f, b, a);
    BeforeWithout(s.tins[t].oldFlows, f, b, a);
  }

  /** Steps that leave a tin's old flows and their deficits alone. */
  lemma UntouchedKeepsPace(c: Config, s: State, l: Ledger, s': State, t: TinId, a: FlowId, b: FlowId)
    requires InOld(s, t, a) && InOld(s, t, b) && t in s'.tins && a in s'.flows && b in s'.flows
    requires s'.tins[t].oldFlows == s.tins[t].oldFlows
    requires s'.flows[a].deficit == s.flows[a].deficit && s'.flows[b].deficit == s.flows[b].deficit
    ensures KeepsPace(c, s, l, s', l, t, a, b)
  {
  }

  lemma PaceChains(c: Config, s0: State, l0: Ledger, s: State, l: Ledger, s': State, l': Ledger,
                   t: TinId, a: FlowId, b: FlowId)
    requires InOld(s0, t, a) && InOld(s0, t, b) && KeepsPace(c, s0, l0, s, l, t, a, b)
    requires KeepsPace(c, s, l, s', l', t, a, b)
    ensures KeepsPace(c, s0, l0, s', l', t, a, b)
  {
  }

  // ----- the steps of one dequeue -----

  /** Between `s0` and `s` no packet moved and every two contending flows kept pace. */
  ghost predicate OnPace(c: Config, s0: State, l0: Ledger, s: State, l: Ledger) {
    && SameLoad(s0, s) && NothingSent(l0, l)
    && forall u, a, b :: Contend(s0, u, a, b) ==> KeepsPace(c, s0, l0, s, l, u, a, b)
  }

  ghost predicate NothingSent(l0: Ledger, l: Ledger) {
    forall g :: l.sent(g) == l0.sent(g)
  }

  /** Exactly `n` bytes were sent, all of them from `f`. */
  ghost predicate SentOnly(l0: Ledger, l: Ledger, f: FlowId, n: int) {
    l.sent(f) == l0.sent(f) + n && forall g :: g != f ==> l.sent(g) == l0.sent(g)
  }

  lemma OnPaceStart(c: Config, s: State, l: Ledger)
    ensures OnPace(c, s, l, s, l)
  {
  }

  lemma OwnersDiffer(s: State, u: TinId, t: TinId, a: FlowId, f: FlowId)
    requires Linked(s) && u in s.tins && u != t && a in s.tins[u].oldFlows && f in s.flows && s.flows[f].tin == Some(t)
    ensures a != f
  {
    assert TinLinked(s, u) && InChain(s.tins[u], a);
  }

  lemma OnPaceReplenish(c: Config, s0: State, l0: Ledger, s: State, l: Ledger, t: TinId, f: FlowId)
    requires OnPace(c, s0, l0, s, l) && Linked(s) && t in s.tins && IsHead(s.tins[t], f) && f in s.flows
    requires SameLoad(s0, Replenish(c, s, t, f)) && s.flows[f].tin == Some(t)
    ensures OnPace(c, s0, l0, Replenish(c, s, t, f), Grant(l, f, c.quantum))
  {
    var s', l' := Replenish(c, s, t, f), Grant(l, f, c.quantum);
    forall u, a, b | Contend(s0, u, a, b) ensures KeepsPace(c, s0, l0, s', l', u, a, b) {
      assert KeepsPace(c, s0, l0, s, l, u, a, b);
      if u == t {
        assert TinLinked(s, t);
        ReplenishKeepsPace(c, s, l, t, f, a, b);
      } else {
        OwnersDiffer(s, u, t, a, f);
        OwnersDiffer(s, u, t, b, f);
      }
      PaceChains(c, s0, l0, s, l, s', l', u, a, b);
    }
  }

  lemma OnPaceRetire(c: Config, s0: State, l0: Ledger, s: State, l: Ledger, s': State, t: TinId, f: FlowId)
    requires OnPace(c, s0, l0, s, l) && t in s.tins && f in s.flows && s.flows[f].queue == []
    requires s' == MoveToOld(s, t, f) || s' == Unlink(s, t, f)
    requires SameLoad(s0, s')
    ensures OnPace(c, s0, l0, s', l)
  {
    forall u, a, b | Contend(s0, u, a, b) ensures KeepsPace(c, s0, l0, s', l, u, a, b) {
      assert KeepsPace(c, s0, l0, s, l, u, a, b);
      assert a != f && b != f;
      if u == t {
        MoveKeepsPace(c, s, l, t, f, a, b);
      } else {
        UntouchedKeepsPace(c, s, l, s', u, a, b);
      }
      PaceChains(c, s0, l0, s, l, s', l, u, a, b);
    }
  }

  // ----- whole runs -----

  datatype Moment = Moment(s: State, l: Ledger)

  /** One operation, seen by every two flows that contend before it and are still old
      flows after it. */
  ghost predicate Paced(c: Config, m: Moment, m': Moment) {
    forall t, a, b :: Contend(m.s, t, a, b) && InOld(m'.s, t, a) && InOld(m'.s, t, b) ==>
      KeepsPace(c, m.s, m.l, m'.s, m'.l, t, a, b)
  }

  ghost predicate AllPaced(c: Config, run: seq<Moment>) {
    forall i :: 0 < i < |run| ==> Paced(c, run[i - 1], run[i])
  }

  /** Valid moments, each reached from the one before by such an operation. */
  ghost predicate IsRun(c: Config, run: seq<Moment>) {
    run != [] && AllPaced(c, run) && forall i :: 0 <= i < |run| ==> Valid(c, run[i].s)
  }

  /** Two flows contend at every moment from `i` to `j`. */
  ghost predicate ContendDuring(run: seq<Moment>, i: int, j: int, t: TinId, a: FlowId, b: FlowId) {
    0 <= i <= j < |run| && forall k :: i <= k <= j ==> Contend(run[k].s, t, a, b)
  }

  lemma {:induction false} RunKeepsPace(c: Config, run: seq<Moment>, i: nat, j: nat, t: TinId, a: FlowId, b: FlowId)
    requires AllPaced(c, run) && ContendDuring(run, i, j, t, a, b)
    ensures var first, last := run[i], run[j];
            && Contend(first.s, t, a, b) && KeepsPace(c, first.s, first.l, last.s, last.l, t, a, b)
    decreases j
  {
    assert Contend(run[i].s, t, a, b);
    if i < j {
      RunKeepsPace(c, run, i, j - 1, t, a, b);
      var m, m' := run[j - 1], run[j];
      assert Paced(c, m, m') && Contend(m.s, t, a, b) && Contend(m'.s, t, a, b);
      PaceChains(c, run[i].s, run[i].l, m.s, m.l, m'.s, m'.l, t, a, b);
    }
  }

  /** The deficit of a linked flow is in (-maxLen, quantum]. */
  lemma DeficitRange(c: Config, s: State, t: TinId, f: FlowId)
    requires Valid(c, s) && InOld(s, t, f)
    ensures s.flows[f].deficit + c.maxLen > 0 && s.flows[f].deficit <= c.quantum
  {
    assert TinLinked(s, t) && InChain(s.tins[t], f) && FlowOk(c, s.flows[f]);
  }

  function SentBetween(first: Ledger, last: Ledger, f: FlowId): int {
    last.sent(f) - first.sent(f)
  }

  /** Fairness: over any stretch of a run in which two flows stay backlogged among the old flows
      of one tin, the bytes sent from them differ by less than 3 quantum + 2 maxLen. */
  lemma Fairness(c: Config, run: seq<Moment>, i: nat, j: nat, t: TinId, a: FlowId, b: FlowId)
    requires IsRun(c, run) && ContendDuring(run, i, j, t, a, b)
    ensures var d := SentBetween(run[i].l, run[j].l, a) - SentBetween(run[i].l, run[j].l, b);
            -(3 * c.quantum + 2 * c.maxLen) as int < d < 3 * c.quantum + 2 * c.maxLen
  {
    var first, last := run[i], run[j];
    RunKeepsPace(c, run, i, j, t, a, b);
    assert Contend(first.s, t, a, b) && Contend(last.s, t, a, b);
    DeficitRange(c, first.s, t, a);
    DeficitRange(c, first.s, t, b);
    DeficitRange(c, last.s, t, a);
    DeficitRange(c, last.s, t, b);
  }
}
