/** No flow starves: while a flow stays backlogged among the old flows of a tin, no other flow gets
    more than about twice as much, not even one that becomes a new flow over and over. This is what
    the pass through the old flows at include/net/fq_impl.h:118-121 is forced for. */
module FqStarve {
  import opened Common
  import opened FqState
  import opened FqSteps
  import opened FqSchedule
  import opened FqFair
  import opened FqOverload
  import opened Fq

  /** `b` is backlogged among the old flows of `t`. */
  ghost predicate Waits(s: State, t: TinId, b: FlowId) {
    InOld(s, t, b) && s.flows[b].queue != []
  }

  /** How many quanta `f` may get before `b` gets its next one: two if it stands before `b` or
      outside, since it can become a new flow; one as a new flow; none behind `b`. */
  ghost function Rank(tn: Tin, f: FlowId, b: FlowId): nat {
    if f in tn.newFlows then 1
    else if f in tn.oldFlows then (if Before(tn.oldFlows, f, b) then 2 else 0)
    else 2
  }

  ghost function Held(s: State, t: TinId, f: FlowId): int
    requires t in s.tins
  {
    if InChain(s.tins[t], f) && f in s.flows then s.flows[f].deficit else 0
  }

  /** What `f` can still send ahead of `b`, against twice what `b` can. */
  ghost function Potential(c: Config, s: State, t: TinId, f: FlowId, b: FlowId): int
    requires t in s.tins && b in s.flows
  {
    Held(s, t, f) + c.quantum * Rank(s.tins[t], f, b) - 2 * s.flows[b].deficit
  }

  // ----- one turn of the loop of fq_tin_dequeue -----

  lemma ReplenishRank(tn: Tin, tn': Tin, g: FlowId, f: FlowId, b: FlowId)
    requires Chained(tn) && IsHead(tn, g) && f != b && b in tn.oldFlows
    requires tn'.newFlows == Without(tn.newFlows, g) && tn'.oldFlows == Without(tn.oldFlows, g) + [g]
    ensures g == f ==> Rank(tn', f, b) + 1 <= Rank(tn, f, b) && InChain(tn', f) && InChain(tn, f)
    ensures g == b ==> Rank(tn', f, b) <= Rank(tn, f, b) + 2 && (InChain(tn', f) <==> InChain(tn, f))
    ensures g != f && g != b ==> Rank(tn', f, b) == Rank(tn, f, b) && (InChain(tn', f) <==> InChain(tn, f))
  {
    HeadMoves(tn, g);
    BeforeAppend(Without(tn.oldFlows, g), g, f, b);
    if g != f && g != b {
      BeforeWithout(tn.oldFlows, g, f, b);
    }
  }

  lemma UnlinkRank(tn: Tin, tn': Tin, g: FlowId, f: FlowId, b: FlowId)
    requires Chained(tn) && IsHead(tn, g) && f != b && g != b && b in tn.oldFlows && tn.newFlows == []
    requires tn'.newFlows == Without(tn.newFlows, g) && tn'.oldFlows == Without(tn.oldFlows, g)
    ensures Rank(tn', f, b) == Rank(tn, f, b) && (g != f ==> (InChain(tn', f) <==> InChain(tn, f))) && (g == f ==> !InChain(tn', f))
  {
    HeadMoves(tn, g);
    if g != f {
      BeforeWithout(tn.oldFlows, g, f, b);
    }
  }

  lemma Product(q: nat, a: nat, b: nat, k: nat)
    requires a + k <= b
    ensures q * a + q * k <= q * b
  {
  }

  lemma ReplenishHeld(c: Config, s: State, t: TinId, g: FlowId, f: FlowId)
    requires t in s.tins && g in s.flows && f in s.flows
    requires InChain(Replenish(c, s, t, g).tins[t], f) <==> InChain(s.tins[t], f)
    ensures Held(Replenish(c, s, t, g), t, f) == Held(s, t, f) + if g == f && InChain(s.tins[t], f) then c.quantum else 0
  {
  }

  lemma ReplenishWaits(c: Config, s: State, t: TinId, g: FlowId, b: FlowId)
    requires t in s.tins && g in s.flows && Waits(s, t, b)
    ensures var s' := Replenish(c, s, t, g);
            Waits(s', t, b) && s'.flows[b].deficit == s.flows[b].deficit + if g == b then c.quantum else 0
  {
    assert b != g ==> b in Without(s.tins[t].oldFlows, g);
  }

  lemma ReplenishPotential(c: Config, s: State, t: TinId, g: FlowId, f: FlowId, b: FlowId)
    requires Linked(s) && t in s.tins && IsHead(s.tins[t], g) && g in s.flows && f != b && Waits(s, t, b) && f in s.flows
    ensures var s' := Replenish(c, s, t, g);
            Waits(s', t, b) && Potential(c, s', t, f, b) <= Potential(c, s, t, f, b)
  {
    var tn, tn' := s.tins[t], Replenish(c, s, t, g).tins[t];
    assert TinLinked(s, t);
    ReplenishRank(tn, tn', g, f, b);
    ReplenishHeld(c, s, t, g, f);
    ReplenishWaits(c, s, t, g, b);
    var r, r' := Rank(tn, f, b), Rank(tn', f, b);
    if g == f {
      Product(c.quantum, r', r, 1);
    } else if g == b {
      Product(c.quantum, r', r + 2, 0);
      assert c.quantum * (r + 2) == c.quantum * r + 2 * c.quantum;
    }
  }

  lemma RetirePotential(c: Config, s: State, t: TinId, g: FlowId, f: FlowId, b: FlowId)
    requires Linked(s) && t in s.tins && IsHead(s.tins[t], g) && g in s.flows && s.flows[g].queue == [] && s.flows[g].deficit > 0
    requires f != b && Waits(s, t, b) && f in s.flows
    ensures var s' := Retired(s, t, g);
            Waits(s', t, b) && Potential(c, s', t, f, b) <= Potential(c, s, t, f, b)
  {
    var tn, s' := s.tins[t], Retired(s, t, g);
    assert TinLinked(s, t);
    HeadMoves(tn, g);
    if tn.newFlows != [] && tn.oldFlows != [] {
      ReplenishRank(tn, s'.tins[t], g, f, b);
      if g == f {
        Product(c.quantum, Rank(s'.tins[t], f, b), Rank(tn, f, b), 0);
      }
    } else {
      UnlinkRank(tn, s'.tins[t], g, f, b);
    }
  }

  lemma {:induction false} ScanPotential(c: Config, s: State, t: TinId, f: FlowId, b: FlowId)
    requires ValidConfig(c) && FqState.Valid(c, s) && t in s.tins && f != b && f in s.flows && Waits(s, t, b)
    ensures var stop := Scan(c, s, t);
            && t in stop.tins && f in stop.flows && FqState.Valid(c, stop)
            && Waits(stop, t, b) && Potential(c, stop, t, f, b) <= Potential(c, s, t, f, b)
    decreases Work(c, s, t)
  {
    if !Settled(s, t) {
      var g := Head(s.tins[t]);
      AdvanceStep(c, s, t);
      if s.flows[g].deficit <= 0 {
        ReplenishPotential(c, s, t, g, f, b);
      } else {
        RetirePotential(c, s, t, g, f, b);
      }
      ScanPotential(c, Advance(c, s, t), t, f, b);
    }
  }

  // ----- one operation -----

  /** The bytes that an operation hands out for `t` from `f`. */
  function Given(op: Operation, out: Option<Delivery>, t: TinId, f: FlowId): nat {
    if op == Dequeue(t) && out.Some? && out.value.from == f then out.value.skb.len else 0
  }

  /** What the potential may be after an operation. */
  ghost predicate Bounded(c: Config, s: State, op: Operation, s': State, out: Option<Delivery>, t: TinId, f: FlowId, b: FlowId) {
    && t in s.tins && b in s.flows && t in s'.tins && b in s'.flows && f in s'.flows
    && Potential(c, s', t, f, b) <= Potential(c, s, t, f, b) - Given(op, out, t, f) + 2 * Given(op, out, t, b)
  }

  lemma ServedPotential(c: Config, s: State, t: TinId, g: FlowId, f: FlowId, b: FlowId)
    requires t in s.tins && g in s.flows && s.flows[g].queue != [] && CanShrink(s, g, s.flows[g].queue[1..])
    requires InChain(s.tins[t], g) && f != b && b in s.flows && f in s.flows
    ensures var s', len := Served(s, t, g), s.flows[g].queue[0].len;
            && t in s'.tins && b in s'.flows && f in s'.flows
            && Potential(c, s', t, f, b) ==
               Potential(c, s, t, f, b) - (if g == f then len else 0) + 2 * (if g == b then len else 0)
  {
    ServedSchedule(s, t, g);
  }

  lemma DequeueBounded(c: Config, s: State, s': State, out: Option<Delivery>, t: TinId, f: FlowId, b: FlowId)
    requires Dequeued(c, s, t, s', out) && f != b && f in s.flows && Waits(s, t, b)
    ensures Bounded(c, s, Dequeue(t), s', out, t, f, b)
  {
    ScanPotential(c, s, t, f, b);
    var stop := Scan(c, s, t);
    if out.Some? {
      ServedPotential(c, stop, t, Head(stop.tins[t]), f, b);
    }
  }

  /** Nothing about the lists of `t` or the deficits of its flows has changed. */
  ghost predicate Untouched(s: State, s': State, t: TinId) {
    && t in s.tins && t in s'.tins && (forall g :: g in s.flows ==> g in s'.flows)
    && s'.tins[t].newFlows == s.tins[t].newFlows && s'.tins[t].oldFlows == s.tins[t].oldFlows
    && forall g :: g in s.flows && InChain(s.tins[t], g) ==> s'.flows[g].deficit == s.flows[g].deficit
  }

  lemma UntouchedBounded(c: Config, s: State, op: Operation, s': State, out: Option<Delivery>, t: TinId, f: FlowId, b: FlowId)
    requires Untouched(s, s', t) && InOld(s, t, b) && f in s.flows && Given(op, out, t, f) == 0
    ensures Bounded(c, s, op, s', out, t, f, b)
  {
    assert InChain(s.tins[t], b);
  }

  lemma OtherDequeue(c: Config, s: State, u: TinId, s': State, out: Option<Delivery>, t: TinId)
    requires Dequeued(c, s, u, s', out) && u != t && t in s.tins
    ensures Untouched(s, s', t)
  {
    DequeuedCounts(c, s, u, s', out);
    assert TinLinked(s, t);
    forall g | g in s.flows && InChain(s.tins[t], g) ensures s'.flows[g].deficit == s.flows[g].deficit {
    }
  }

  lemma JoinedBounded(c: Config, s: State, op: Operation, s': State, u: TinId, g: FlowId, t: TinId, f: FlowId, b: FlowId)
    requires Linked(s) && Joined(c, s, s', u, g) && f != b && f in s.flows && Waits(s, t, b) && op.Enqueue?
    ensures Bounded(c, s, op, s', None, t, f, b)
  {
    LinkedIffOwned(s, g);
    LinkedIffOwned(s, b);
    assert TinLinked(s, t);
    if u != t || s.flows[g].tin.Some? {
      JoinedUntouched(c, s, s', u, g, t);
      UntouchedBounded(c, s, op, s', None, t, f, b);
    } else {
      assert !InChain(s.tins[t], g);
      assert InChain(s.tins[t], b);
      assert s'.tins[t].newFlows == s.tins[t].newFlows + [g];
      if f != g {
        assert Rank(s'.tins[t], f, b) == Rank(s.tins[t], f, b) && (InChain(s'.tins[t], f) <==> InChain(s.tins[t], f));
      }
    }
  }

  lemma JoinedUntouched(c: Config, s: State, s': State, u: TinId, g: FlowId, t: TinId)
    requires Linked(s) && Joined(c, s, s', u, g) && t in s.tins && (u != t || s.flows[g].tin.Some?)
    ensures Untouched(s, s', t)
  {
    assert TinLinked(s, t);
    forall h | h in s.flows && InChain(s.tins[t], h) ensures s'.flows[h].deficit == s.flows[h].deficit {
      assert s.flows[h].tin == Some(t);
    }
  }

  lemma ResetUntouched(s: State, s': State, u: TinId, t: TinId)
    requires Linked(s) && OnlyTin(s, s', u) && u != t && t in s.tins
    ensures Untouched(s, s', t)
  {
    assert TinLinked(s, t);
    forall h | h in s.flows && InChain(s.tins[t], h) ensures s'.flows[h].deficit == s.flows[h].deficit {
      assert s.flows[h].tin == Some(t);
    }
  }

  lemma TurnBounded(c: Config, m: Moment, op: Operation, m': Moment, out: Option<Delivery>, t: TinId, f: FlowId, b: FlowId)
    requires Turn(c, m, op, m', out) && FqState.Valid(c, m.s) && f != b && f in m.s.flows
    requires Waits(m.s, t, b) && Waits(m'.s, t, b)
    ensures Bounded(c, m.s, op, m'.s, out, t, f, b)
  {
    var s, s' := m.s, m'.s;
    if !Enabled(c, s, op) {
      UntouchedBounded(c, s, op, s', out, t, f, b);
      return;
    }
    match op
    case CreateTin(u) =>
      UntouchedBounded(c, s, op, s', out, t, f, b);
    case Enqueue(u, idx, skbs) =>
      JoinedBounded(c, s, op, s', u, Classified(s, u, idx), t, f, b);
    case Dequeue(u) =>
      if u == t {
        DequeueBounded(c, s, s', out, t, f, b);
      } else {
        OtherDequeue(c, s, u, s', out, t);
        UntouchedBounded(c, s, op, s', out, t, f, b);
      }
    case FilterTin(u, drop) =>
      UntouchedBounded(c, s, op, s', out, t, f, b);
    case ResetTin(u) =>
      ResetUntouched(s, s', u, t);
      UntouchedBounded(c, s, op, s', out, t, f, b);
  }

  // ----- whole runs -----

  /** `b` waits at every moment from `i` to `j`. */
  ghost predicate WaitsDuring(run: seq<Moment>, i: int, j: int, t: TinId, b: FlowId) {
    0 <= i <= j < |run| && forall k :: i <= k <= j ==> Waits(run[k].s, t, b)
  }

  /** The bytes handed out for `t` from `f` by the operations from `i` to before `j`. */
  ghost function GivenDuring(ops: seq<Operation>, outs: seq<Option<Delivery>>, i: nat, j: nat, t: TinId, f: FlowId): nat
    requires i <= j <= |ops| == |outs|
  {
    if i == j then 0 else GivenDuring(ops, outs, i, j - 1, t, f) + Given(ops[j - 1], outs[j - 1], t, f)
  }

  ghost predicate IsRunOf(r: seq<Moment>, run: seq<Moment>) {
    r == run
  }

  /** A recorded run. (The quantifier keeps what is known of it out of proofs that only carry it.) */
  ghost predicate OnRecord(c: Config, ops: seq<Operation>, run: seq<Moment>, outs: seq<Option<Delivery>>) {
    |run| == |ops| + 1 && |outs| == |ops| && forall r :: IsRunOf(r, run) ==> Recorded(c, ops, r, outs)
  }

  lemma TurnOnRecord(c: Config, ops: seq<Operation>, run: seq<Moment>, outs: seq<Option<Delivery>>, k: nat,
                     t: TinId, f: FlowId, b: FlowId)
    requires OnRecord(c, ops, run, outs) && k < |ops| && f != b && f in run[k].s.flows
    requires Waits(run[k].s, t, b) && Waits(run[k + 1].s, t, b)
    ensures Bounded(c, run[k].s, ops[k], run[k + 1].s, outs[k], t, f, b)
  {
    assert IsRunOf(run, run);
    assert Turn(c, run[k], ops[k], run[k + 1], outs[k]);
    TurnBounded(c, run[k], ops[k], run[k + 1], outs[k], t, f, b);
  }

  lemma {:induction false} RunBounded(c: Config, ops: seq<Operation>, run: seq<Moment>, outs: seq<Option<Delivery>>, i: nat, j: nat,
                                      t: TinId, f: FlowId, b: FlowId)
    requires OnRecord(c, ops, run, outs) && WaitsDuring(run, i, j, t, b) && f != b && f in run[i].s.flows
    ensures t in run[i].s.tins && b in run[i].s.flows && t in run[j].s.tins && b in run[j].s.flows && f in run[j].s.flows
    ensures Potential(c, run[j].s, t, f, b) <=
            Potential(c, run[i].s, t, f, b) - GivenDuring(ops, outs, i, j, t, f) + 2 * GivenDuring(ops, outs, i, j, t, b)
    decreases j
  {
    assert Waits(run[i].s, t, b) && Waits(run[j].s, t, b);
    if i < j {
      RunBounded(c, ops, run, outs, i, j - 1, t, f, b);
      assert Waits(run[j - 1].s, t, b);
      TurnOnRecord(c, ops, run, outs, j - 1, t, f, b);
    }
  }

  lemma PotentialRange(c: Config, s: State, t: TinId, f: FlowId, b: FlowId)
    requires FqState.Valid(c, s) && InOld(s, t, b) && f in s.flows
    ensures Potential(c, s, t, f, b) <= 3 * c.quantum + 2 * c.maxLen
    ensures Potential(c, s, t, f, b) + 2 * c.quantum + c.maxLen >= 0
  {
    assert TinLinked(s, t) && InChain(s.tins[t], b) && FlowOk(c, s.flows[b]) && FlowOk(c, s.flows[f]);
    Product(c.quantum, Rank(s.tins[t], f, b), 2, 0);
    assert c.quantum * Rank(s.tins[t], f, b) >= 0;
  }

  /** No starvation: over any stretch of any run in which `b` stays backlogged among the old flows of
      a tin, no other flow of the tin, old or new, is given more than twice what `b` is given and a
      constant. */
  lemma NoStarvation(c: Config, ops: seq<Operation>, run: seq<Moment>, outs: seq<Option<Delivery>>, i: nat, j: nat,
                     t: TinId, f: FlowId, b: FlowId)
    requires Recorded(c, ops, run, outs) && WaitsDuring(run, i, j, t, b) && f != b && f in run[i].s.flows
    ensures GivenDuring(ops, outs, i, j, t, f) <= 2 * GivenDuring(ops, outs, i, j, t, b) + 5 * c.quantum + 3 * c.maxLen
  {
    RunBounded(c, ops, run, outs, i, j, t, f, b);
    assert Waits(run[i].s, t, b) && Waits(run[j].s, t, b);
    PotentialRange(c, run[i].s, t, f, b);
    PotentialRange(c, run[j].s, t, f, b);
  }
}
