/** The deficit round robin of fq_tin_dequeue (include/net/fq_impl.h:90-135), step by step:
    the invariant, the measure that makes its loop end, and what keeps it fair. */
module FqSchedule {
  import opened Common
  import opened FqState
  import opened FqSteps

  // ----- moving and removing a flow -----

  /** list_move_tail onto old_flows. */
  function MoveToOld(s: State, t: TinId, f: FlowId): State
    requires t in s.tins
  {
    var tn := s.tins[t];
    s.(tins := s.tins[t := tn.(newFlows := Without(tn.newFlows, f), oldFlows := Without(tn.oldFlows, f) + [f])])
  }

  /** list_del_init on the flow's node, and no owner any more. */
  function Unlink(s: State, t: TinId, f: FlowId): State
    requires t in s.tins && f in s.flows
  {
    var tn := s.tins[t];
    s.(tins := s.tins[t := tn.(newFlows := Without(tn.newFlows, f), oldFlows := Without(tn.oldFlows, f))],
       flows := s.flows[f := s.flows[f].(tin := None)])
  }

  /** One more quantum for a flow whose deficit is used up (fq_impl.h:110-113). */
  function Replenish(c: Config, s: State, t: TinId, f: FlowId): State
    requires t in s.tins && f in s.flows
  {
    MoveToOld(s.(flows := s.flows[f := s.flows[f].(deficit := s.flows[f].deficit + c.quantum)]), t, f)
  }

  lemma MovedChained(tn: Tin, f: FlowId)
    requires Chained(tn)
    ensures Chained(tn.(newFlows := Without(tn.newFlows, f), oldFlows := Without(tn.oldFlows, f) + [f]))
    ensures Chained(tn.(newFlows := Without(tn.newFlows, f), oldFlows := Without(tn.oldFlows, f)))
  {
    WithoutNoDup(tn.newFlows, f);
    WithoutNoDup(tn.oldFlows, f);
  }

  lemma ReplenishLinked(c: Config, s: State, t: TinId, f: FlowId)
    requires Linked(s) && t in s.tins && f in s.flows && s.flows[f].tin == Some(t)
    ensures Linked(Replenish(c, s, t, f)) && Linked(MoveToOld(s, t, f))
  {
    ReplenishLinked'(s, MoveToOld(s, t, f), t, f);
    ReplenishLinked'(s, Replenish(c, s, t, f), t, f);
  }

  lemma ReplenishLinked'(s: State, s': State, t: TinId, f: FlowId)
    requires Linked(s) && t in s.tins && f in s.flows && s.flows[f].tin == Some(t)
    requires s'.flows.Keys == s.flows.Keys && s'.tins == MoveToOld(s, t, f).tins
    requires forall g :: g in s.flows ==> s'.flows[g].tin == s.flows[g].tin && s'.flows[g].queue == s.flows[g].queue
    ensures Linked(s')
  {
    assert TinLinked(s, t);
    MovedChained(s.tins[t], f);
    forall u | u in s'.tins ensures TinLinked(s', u) {
      assert TinLinked(s, u);
      forall g | InChain(s'.tins[u], g) ensures g in s'.flows && s'.flows[g].tin == Some(u) {
        assert InChain(s.tins[u], g) || (u == t && g == f);
      }
    }
    forall g | g in s'.flows ensures FlowLinked(s', g) {
      assert FlowLinked(s, g);
    }
  }

  lemma ReplenishValid(c: Config, s: State, t: TinId, f: FlowId)
    requires ValidConfig(c) && Valid(c, s) && t in s.tins && f in s.flows && s.flows[f].tin == Some(t)
    requires s.flows[f].deficit <= 0
    ensures Valid(c, Replenish(c, s, t, f)) && SameLoad(s, Replenish(c, s, t, f))
  {
    var s' := Replenish(c, s, t, f);
    ReplenishLinked(c, s, t, f);
    SameLoadKeeps(c, s, s');
    forall g | g in s'.flows ensures FlowOk(c, s'.flows[g]) {
      assert FlowOk(c, s.flows[g]);
    }
  }

  lemma MoveValid(c: Config, s: State, t: TinId, f: FlowId)
    requires Valid(c, s) && t in s.tins && f in s.flows && s.flows[f].tin == Some(t)
    ensures Valid(c, MoveToOld(s, t, f)) && SameLoad(s, MoveToOld(s, t, f))
  {
    var s' := MoveToOld(s, t, f);
    ReplenishLinked(c, s, t, f);
    SameLoadKeeps(c, s, s');
    forall g | g in s'.flows ensures FlowOk(c, s'.flows[g]) {
      assert FlowOk(c, s.flows[g]);
    }
  }

  lemma UnlinkLinked(s: State, t: TinId, f: FlowId)
    requires Linked(s) && t in s.tins && f in s.flows && s.flows[f].tin == Some(t) && s.flows[f].queue == []
    ensures Linked(Unlink(s, t, f))
  {
    var s' := Unlink(s, t, f);
    assert TinLinked(s, t);
    MovedChained(s.tins[t], f);
    WithoutNoDup(s.tins[t].newFlows, f);
    WithoutNoDup(s.tins[t].oldFlows, f);
    forall u | u in s'.tins ensures TinLinked(s', u) {
      assert TinLinked(s, u);
      forall g | InChain(s'.tins[u], g) ensures g in s'.flows && s'.flows[g].tin == Some(u) {
        assert InChain(s.tins[u], g);
      }
    }
    forall g | g in s'.flows ensures FlowLinked(s', g) {
      assert FlowLinked(s, g);
    }
  }

  lemma UnlinkValid(c: Config, s: State, t: TinId, f: FlowId)
    requires Valid(c, s) && t in s.tins && f in s.flows && s.flows[f].tin == Some(t) && s.flows[f].queue == []
    ensures Valid(c, Unlink(s, t, f)) && SameLoad(s, Unlink(s, t, f))
  {
    var s' := Unlink(s, t, f);
    UnlinkLinked(s, t, f);
    SameLoadKeeps(c, s, s');
    forall g | g in s'.flows ensures FlowOk(c, s'.flows[g]) {
      assert FlowOk(c, s.flows[g]);
    }
  }

  // ----- the loop ends -----

  /** What a flow is short of a full quantum, for any deficit whatever. */
  function Missing(c: Config, fl: Flow): nat {
    if fl.deficit < c.quantum then c.quantum - fl.deficit else 0
  }

  ghost function Slack(c: Config, flows: map<FlowId, Flow>, l: seq<FlowId>): nat {
    if l == [] then 0
    else (if l[0] in flows then Missing(c, flows[l[0]]) else 0) + Slack(c, flows, l[1..])
  }

  lemma {:induction false} SlackAppend(c: Config, flows: map<FlowId, Flow>, l: seq<FlowId>, f: FlowId)
    requires f in flows
    ensures Slack(c, flows, l + [f]) == Slack(c, flows, l) + Missing(c, flows[f])
  {
    if l == [] {
      assert l + [f] == [f] && [f][1..] == [];
    } else {
      assert (l + [f])[1..] == l[1..] + [f];
      SlackAppend(c, flows, l[1..], f);
    }
  }

  lemma {:induction false} SlackSame(c: Config, flows: map<FlowId, Flow>, flows': map<FlowId, Flow>, l: seq<FlowId>)
    requires flows.Keys == flows'.Keys
    requires forall f :: f in l && f in flows ==> flows'[f].deficit == flows[f].deficit
    ensures Slack(c, flows', l) == Slack(c, flows, l)
  {
    if l != [] {
      SlackSame(c, flows, flows', l[1..]);
    }
  }

  /** The measure of the loop: missing quanta, then two for every new flow and one for
      every old one. */
  ghost function Work(c: Config, s: State, t: TinId): nat
    requires t in s.tins
  {
    Slack(c, s.flows, s.tins[t].newFlows) + Slack(c, s.flows, s.tins[t].oldFlows)
    + 2 * |s.tins[t].newFlows| + |s.tins[t].oldFlows|
  }

  /** The flow the loop looks at. */
  predicate IsHead(tn: Tin, f: FlowId) {
    (tn.newFlows != [] && f == tn.newFlows[0]) || (tn.newFlows == [] && tn.oldFlows != [] && f == tn.oldFlows[0])
  }

  lemma HeadOwned(s: State, t: TinId, f: FlowId)
    requires Linked(s) && t in s.tins && IsHead(s.tins[t], f)
    ensures f in s.flows && s.flows[f].tin == Some(t)
  {
    assert TinLinked(s, t) && InChain(s.tins[t], f);
  }

  /** Taking the head off and putting it at the end of the old flows. */
  lemma HeadMoves(tn: Tin, f: FlowId)
    requires Chained(tn) && IsHead(tn, f)
    ensures Without(tn.newFlows, f) == (if tn.newFlows != [] then tn.newFlows[1..] else [])
    ensures Without(tn.oldFlows, f) == (if tn.newFlows != [] then tn.oldFlows else tn.oldFlows[1..])
    ensures f !in Without(tn.newFlows, f) && f !in Without(tn.oldFlows, f)
  {
    WithoutNoDup(tn.newFlows, f);
    WithoutNoDup(tn.oldFlows, f);
    if tn.newFlows != [] {
      assert f in tn.newFlows;
    }
  }

  /** What the head adds to the measure. */
  lemma HeadWork(c: Config, s: State, t: TinId, f: FlowId)
    requires t in s.tins && Chained(s.tins[t]) && IsHead(s.tins[t], f) && f in s.flows
    ensures var tn := s.tins[t];
            Work(c, s, t) == Slack(c, s.flows, Without(tn.newFlows, f)) + Slack(c, s.flows, Without(tn.oldFlows, f))
                             + 2 * |Without(tn.newFlows, f)| + |Without(tn.oldFlows, f)|
                             + Missing(c, s.flows[f]) + (if tn.newFlows != [] then 2 else 1)
  {
    HeadMoves(s.tins[t], f);
  }

  lemma ReplenishWork(c: Config, s: State, t: TinId, f: FlowId)
    requires ValidConfig(c) && t in s.tins && Chained(s.tins[t]) && IsHead(s.tins[t], f) && f in s.flows
    requires s.flows[f].deficit <= 0
    ensures Work(c, Replenish(c, s, t, f), t) < Work(c, s, t)
  {
    var s' := Replenish(c, s, t, f);
    var news, olds := Without(s.tins[t].newFlows, f), Without(s.tins[t].oldFlows, f);
    HeadWork(c, s, t, f);
    HeadMoves(s.tins[t], f);
    SlackSame(c, s.flows, s'.flows, news);
    SlackSame(c, s.flows, s'.flows, olds);
    SlackAppend(c, s'.flows, olds, f);
  }

  lemma MoveWork(c: Config, s: State, t: TinId, f: FlowId)
    requires t in s.tins && Chained(s.tins[t]) && IsHead(s.tins[t], f) && f in s.flows && s.tins[t].newFlows != []
    ensures Work(c, MoveToOld(s, t, f), t) < Work(c, s, t)
  {
    HeadWork(c, s, t, f);
    SlackAppend(c, s.flows, Without(s.tins[t].oldFlows, f), f);
  }

  lemma UnlinkWork(c: Config, s: State, t: TinId, f: FlowId)
    requires t in s.tins && Chained(s.tins[t]) && IsHead(s.tins[t], f) && f in s.flows
    ensures Work(c, Unlink(s, t, f), t) < Work(c, s, t)
  {
    var s' := Unlink(s, t, f);
    HeadWork(c, s, t, f);
    SlackSame(c, s.flows, s'.flows, Without(s.tins[t].newFlows, f));
    SlackSame(c, s.flows, s'.flows, Without(s.tins[t].oldFlows, f));
  }

  /** fq_tin_dequeue comes to an end whatever the deficits are: every turn that does not hand
      out a packet lowers the measure, a natural number, and keeps the lists in order. */
  lemma EveryTurnCounts(c: Config, s: State, t: TinId, f: FlowId)
    requires ValidConfig(c) && t in s.tins && Chained(s.tins[t]) && IsHead(s.tins[t], f) && f in s.flows
    ensures s.flows[f].deficit <= 0 ==>
              Work(c, Replenish(c, s, t, f), t) < Work(c, s, t) && Chained(Replenish(c, s, t, f).tins[t])
    ensures s.tins[t].newFlows != [] ==> Work(c, MoveToOld(s, t, f), t) < Work(c, s, t) && Chained(MoveToOld(s, t, f).tins[t])
    ensures Work(c, Unlink(s, t, f), t) < Work(c, s, t) && Chained(Unlink(s, t, f).tins[t])
  {
    MovedChained(s.tins[t], f);
    if s.flows[f].deficit <= 0 {
      ReplenishWork(c, s, t, f);
    }
    if s.tins[t].newFlows != [] {
      MoveWork(c, s, t, f);
    }
    UnlinkWork(c, s, t, f);
  }
}
