/** The elementary steps of include/net/fq_impl.h and what each keeps. */
module FqSteps {
  import opened Common
  import opened FqState

  // ----- steps that move no packets -----

  /** Same queues and counters; only an empty flow may have changed owner. */
  ghost predicate SameLoad(s: State, s': State) {
    && s'.flows.Keys == s.flows.Keys && s'.tins.Keys == s.tins.Keys
    && (forall f :: f in s.flows ==> s'.flows[f].queue == s.flows[f].queue && s'.flows[f].backlog == s.flows[f].backlog)
    && (forall f :: f in s.flows && s.flows[f].queue != [] ==> s'.flows[f].tin == s.flows[f].tin)
    && (forall t :: t in s.tins ==> s'.tins[t].backlogBytes == s.tins[t].backlogBytes
                                    && s'.tins[t].backlogPackets == s.tins[t].backlogPackets)
    && s'.bitmap == s.bitmap && s'.tinBacklog == s.tinBacklog
    && s'.backlog == s.backlog && s'.memoryUsage == s.memoryUsage
  }

  lemma SameLoadTin(s: State, s': State, t: TinId)
    requires SameLoad(s, s') && t in s.tins && TinCounted(s, t)
    ensures TinCounted(s', t)
  {
    SameTinBytes(s.flows, s'.flows, t);
    SameTinPackets(s.flows, s'.flows, t);
  }

  /** Only empty flows have changed owner. */
  ghost predicate SameQueues(flows: map<FlowId, Flow>, flows': map<FlowId, Flow>) {
    flows'.Keys == flows.Keys && forall f :: f in flows ==>
      flows'[f].queue == flows[f].queue && (flows[f].queue != [] ==> flows'[f].tin == flows[f].tin)
  }

  lemma SameTinBytes(flows: map<FlowId, Flow>, flows': map<FlowId, Flow>, t: TinId)
    requires SameQueues(flows, flows')
    ensures TinBytesOf(flows', t) == TinBytesOf(flows, t)
  {
    var m, m' := TinBytesOf(flows, t), TinBytesOf(flows', t);
    assert m'.Keys == flows'.Keys && m.Keys == flows.Keys;
    forall f | f in m ensures m'[f] == m[f] {
      assert f in flows.Keys;
    }
  }

  lemma SameTinPackets(flows: map<FlowId, Flow>, flows': map<FlowId, Flow>, t: TinId)
    requires SameQueues(flows, flows')
    ensures TinPacketsOf(flows', t) == TinPacketsOf(flows, t)
  {
    var m, m' := TinPacketsOf(flows, t), TinPacketsOf(flows', t);
    assert m'.Keys == flows'.Keys && m.Keys == flows.Keys;
    forall f | f in m ensures m'[f] == m[f] {
      assert f in flows.Keys;
    }
  }

  lemma SameLoadCounted(s: State, s': State)
    requires SameLoad(s, s') && Counted(s)
    ensures Counted(s')
  {
    assert PacketsOf(s'.flows) == PacketsOf(s.flows);
    assert MemoryOf(s'.flows) == MemoryOf(s.flows);
    forall t | t in s'.tins ensures TinCounted(s', t) {
      assert TinCounted(s, t);
      SameLoadTin(s, s', t);
    }
  }

  lemma SameLoadKeeps(c: Config, s: State, s': State)
    requires SameLoad(s, s') && Present(c, s) && Indexed(s) && Counted(s)
    ensures Present(c, s') && Indexed(s') && Counted(s')
  {
    SameLoadCounted(s, s');
  }

  /** Same lists and same owners. */
  ghost predicate SameLinks(s: State, s': State) {
    && s'.flows.Keys == s.flows.Keys && s'.tins.Keys == s.tins.Keys
    && (forall f :: f in s.flows ==> s'.flows[f].tin == s.flows[f].tin)
    && (forall t :: t in s.tins ==> s'.tins[t].newFlows == s.tins[t].newFlows && s'.tins[t].oldFlows == s.tins[t].oldFlows)
  }

  lemma SameLinksKeeps(s: State, s': State)
    requires SameLinks(s, s') && Linked(s)
    requires forall f :: f in s.flows && s.flows[f].tin.None? ==> s'.flows[f].queue == s.flows[f].queue
    ensures Linked(s')
  {
    forall t | t in s'.tins ensures TinLinked(s', t) {
      assert TinLinked(s, t);
      forall f | InChain(s'.tins[t], f) ensures f in s'.flows && s'.flows[f].tin == Some(t) {
        assert InChain(s.tins[t], f);
      }
    }
    forall f | f in s'.flows ensures FlowLinked(s', f) {
      assert FlowLinked(s, f);
    }
  }

  // ----- a change of one queue -----

  /** `f` belongs to `t`, or to no tin and is empty. */
  ghost predicate Available(fl: Flow, t: TinId) {
    fl.tin == Some(t) || (fl.tin.None? && fl.queue == [])
  }

  /** The totals once the flow `f` of tin `t` is `fl`. */
  lemma GlobalTotals(s: State, f: FlowId, fl: Flow)
    requires Counted(s) && f in s.flows
    ensures |s.flows[f].queue| <= s.backlog && Memory(s.flows[f].queue) <= s.memoryUsage
    ensures Total(PacketsOf(s.flows[f := fl]), s.backlog - |s.flows[f].queue| + |fl.queue|)
    ensures Total(MemoryOf(s.flows[f := fl]), s.memoryUsage - Memory(s.flows[f].queue) + Memory(fl.queue))
  {
    var flows' := s.flows[f := fl];
    TotalUpdate(PacketsOf(s.flows), s.backlog, f, |fl.queue|);
    assert PacketsOf(flows') == PacketsOf(s.flows)[f := |fl.queue|];
    TotalUpdate(MemoryOf(s.flows), s.memoryUsage, f, Memory(fl.queue));
    assert MemoryOf(flows') == MemoryOf(s.flows)[f := Memory(fl.queue)];
  }

  lemma TinTotals(s: State, f: FlowId, fl: Flow, t: TinId)
    requires t in s.tins && TinCounted(s, t) && f in s.flows && Available(s.flows[f], t) && fl.tin == Some(t)
    ensures Bytes(s.flows[f].queue) <= s.tins[t].backlogBytes && |s.flows[f].queue| <= s.tins[t].backlogPackets
    ensures Total(TinBytesOf(s.flows[f := fl], t), s.tins[t].backlogBytes - Bytes(s.flows[f].queue) + Bytes(fl.queue))
    ensures Total(TinPacketsOf(s.flows[f := fl], t), s.tins[t].backlogPackets - |s.flows[f].queue| + |fl.queue|)
  {
    var flows' := s.flows[f := fl];
    TotalUpdate(TinBytesOf(s.flows, t), s.tins[t].backlogBytes, f, Bytes(fl.queue));
    assert TinBytesOf(flows', t) == TinBytesOf(s.flows, t)[f := Bytes(fl.queue)];
    TotalUpdate(TinPacketsOf(s.flows, t), s.tins[t].backlogPackets, f, |fl.queue|);
    assert TinPacketsOf(flows', t) == TinPacketsOf(s.flows, t)[f := |fl.queue|];
  }

  lemma OtherTinTotals(s: State, f: FlowId, fl: Flow, t: TinId, t': TinId)
    requires t' in s.tins && TinCounted(s, t') && f in s.flows && t' != t && Available(s.flows[f], t) && fl.tin == Some(t)
    ensures Total(TinBytesOf(s.flows[f := fl], t'), s.tins[t'].backlogBytes)
    ensures Total(TinPacketsOf(s.flows[f := fl], t'), s.tins[t'].backlogPackets)
  {
    var flows' := s.flows[f := fl];
    var bytes, packets := TinBytesOf(flows', t'), TinPacketsOf(flows', t');
    forall g | g in s.flows ensures bytes[g] == TinBytesOf(s.flows, t')[g] && packets[g] == TinPacketsOf(s.flows, t')[g] {
      assert g != f ==> flows'[g] == s.flows[g];
    }
    assert bytes == TinBytesOf(s.flows, t');
    assert packets == TinPacketsOf(s.flows, t');
  }

  /** The counters of `s'` follow the change of one flow of one tin. */
  ghost predicate Follows(s: State, s': State, f: FlowId, fl: Flow, t: TinId) {
    && f in s.flows && t in s.tins && s'.flows == s.flows[f := fl] && s'.tins.Keys == s.tins.Keys
    && s'.backlog == s.backlog - |s.flows[f].queue| + |fl.queue|
    && s'.memoryUsage == s.memoryUsage - Memory(s.flows[f].queue) + Memory(fl.queue)
    && s'.tins[t].backlogBytes == s.tins[t].backlogBytes - Bytes(s.flows[f].queue) + Bytes(fl.queue)
    && s'.tins[t].backlogPackets == s.tins[t].backlogPackets - |s.flows[f].queue| + |fl.queue|
    && forall t' :: t' in s.tins && t' != t ==> s'.tins[t'] == s.tins[t']
  }

  lemma FollowsCounted(s: State, s': State, f: FlowId, fl: Flow, t: TinId)
    requires Counted(s) && Follows(s, s', f, fl, t) && Available(s.flows[f], t) && fl.tin == Some(t)
    ensures Counted(s')
  {
    GlobalTotals(s, f, fl);
    forall t' | t' in s'.tins ensures TinCounted(s', t') {
      assert TinCounted(s, t');
      if t' == t {
        TinTotals(s, f, fl, t);
      } else {
        OtherTinTotals(s, f, fl, t, t');
      }
    }
  }

  // ----- __fq_adjust_removal -----

  /** No counter is smaller than what is taken from it. */
  predicate CanRemove(s: State, f: FlowId, packets: nat, bytes: nat, truesize: nat) {
    && f in s.flows && s.flows[f].tin.Some? && s.flows[f].tin.value in s.tins
    && (f.DefaultOf? ==> f.t == s.flows[f].tin.value)
    && var tn := s.tins[s.flows[f].tin.value];
       && bytes <= tn.backlogBytes && packets <= tn.backlogPackets && bytes <= s.flows[f].backlog
       && packets <= s.backlog && truesize <= s.memoryUsage
  }

  function AdjustRemoval(s: State, f: FlowId, packets: nat, bytes: nat, truesize: nat): State
    requires CanRemove(s, f, packets, bytes, truesize)
  {
    var t := s.flows[f].tin.value;
    var tn := s.tins[t];
    var s1 := s.(tins := s.tins[t := tn.(backlogBytes := tn.backlogBytes - bytes,
                                         backlogPackets := tn.backlogPackets - packets)],
                 flows := s.flows[f := s.flows[f].(backlog := s.flows[f].backlog - bytes)],
                 backlog := s.backlog - packets,
                 memoryUsage := s.memoryUsage - truesize);
    if s1.flows[f].backlog != 0 then s1
    else if f.DefaultOf? then s1.(tinBacklog := Without(s.tinBacklog, t))
    else s1.(bitmap := s.bitmap - {f.index})
  }

  function SetQueue(s: State, f: FlowId, q: seq<Skb>): State
    requires f in s.flows
  {
    s.(flows := s.flows[f := s.flows[f].(queue := q)])
  }

  /** What is left of a queue after packets were taken out of it. */
  ghost predicate Subqueue(q: seq<Skb>, q0: seq<Skb>) {
    && |q| <= |q0| && Bytes(q) <= Bytes(q0) && Memory(q) <= Memory(q0)
    && forall k :: 0 <= k < |q| ==> q[k] in q0
  }

  /** The state once `f` holds `q` only and the counters have been adjusted. */
  ghost function Shrink(s: State, f: FlowId, q: seq<Skb>): State
    requires f in s.flows && Subqueue(q, s.flows[f].queue)
    requires CanRemove(s, f, |s.flows[f].queue| - |q|, Bytes(s.flows[f].queue) - Bytes(q),
                       Memory(s.flows[f].queue) - Memory(q))
  {
    var q0 := s.flows[f].queue;
    AdjustRemoval(SetQueue(s, f, q), f, |q0| - |q|, Bytes(q0) - Bytes(q), Memory(q0) - Memory(q))
  }

  ghost predicate CanShrink(s: State, f: FlowId, q: seq<Skb>) {
    && f in s.flows && Subqueue(q, s.flows[f].queue)
    && CanRemove(s, f, |s.flows[f].queue| - |q|, Bytes(s.flows[f].queue) - Bytes(q),
                 Memory(s.flows[f].queue) - Memory(q))
  }

  lemma ShrinkPossible(c: Config, s: State, f: FlowId, q: seq<Skb>)
    requires Valid(c, s) && f in s.flows && s.flows[f].tin.Some? && Subqueue(q, s.flows[f].queue)
    ensures CanShrink(s, f, q)
  {
    FlowWithinTotals(s, f);
    assert FlowOk(c, s.flows[f]) && FlowLinked(s, f);
  }

  lemma ShrinkCounted(s: State, f: FlowId, q: seq<Skb>)
    requires Counted(s) && CanShrink(s, f, q)
    ensures Counted(Shrink(s, f, q))
  {
    var s' := Shrink(s, f, q);
    FollowsCounted(s, s', f, s'.flows[f], s.flows[f].tin.value);
  }

  lemma ShrinkIndexed(c: Config, s: State, f: FlowId, q: seq<Skb>)
    requires FlowsOk(c, s) && Indexed(s) && CanShrink(s, f, q)
    ensures Indexed(Shrink(s, f, q))
  {
    TotalsBound(q);
    assert FlowOk(c, s.flows[f]);
    WithoutNoDup(s.tinBacklog, s.flows[f].tin.value);
  }

  lemma ShrinkLinked(c: Config, s: State, f: FlowId, q: seq<Skb>)
    requires Present(c, s) && Linked(s) && CanShrink(s, f, q)
    ensures Present(c, Shrink(s, f, q)) && Linked(Shrink(s, f, q)) && SameLinks(s, Shrink(s, f, q))
  {
    ShrinkSameLinks(s, f, q);
    SameLinksKeeps(s, Shrink(s, f, q));
    PresentStays(c, s, Shrink(s, f, q));
  }

  lemma ShrinkSameLinks(s: State, f: FlowId, q: seq<Skb>)
    requires CanShrink(s, f, q)
    ensures SameLinks(s, Shrink(s, f, q))
    ensures forall g :: g in s.flows && g != f ==> Shrink(s, f, q).flows[g] == s.flows[g]
  {
  }

  lemma SubqueueShort(c: Config, q: seq<Skb>, q0: seq<Skb>)
    requires Subqueue(q, q0) && forall k :: 0 <= k < |q0| ==> q0[k].len <= c.maxLen
    ensures forall k :: 0 <= k < |q| ==> q[k].len <= c.maxLen
  {
  }

  lemma ShrinkFlowsOk(c: Config, s: State, f: FlowId, q: seq<Skb>)
    requires FlowsOk(c, s) && CanShrink(s, f, q)
    ensures FlowsOk(c, Shrink(s, f, q))
  {
    var s' := Shrink(s, f, q);
    assert FlowOk(c, s.flows[f]);
    SubqueueShort(c, q, s.flows[f].queue);
    assert FlowOk(c, s'.flows[f]);
    forall g | g in s'.flows ensures FlowOk(c, s'.flows[g]) {
      assert g != f ==> s'.flows[g] == s.flows[g];
      assert FlowOk(c, s.flows[g]);
    }
  }

  /** Taking packets out of a queue keeps the invariant; no counter underflows. */
  lemma ShrinkValid(c: Config, s: State, f: FlowId, q: seq<Skb>)
    requires Valid(c, s) && f in s.flows && s.flows[f].tin.Some? && Subqueue(q, s.flows[f].queue)
    ensures CanShrink(s, f, q) && Valid(c, Shrink(s, f, q))
  {
    ShrinkPossible(c, s, f, q);
    ShrinkCounted(s, f, q);
    ShrinkIndexed(c, s, f, q);
    ShrinkLinked(c, s, f, q);
    ShrinkFlowsOk(c, s, f, q);
  }

  // ----- admission of packets (fq_tin_enqueue up to the overload loop) -----

  /** list_empty(&flow->flowchain), negated. */
  predicate IsLinked(s: State, f: FlowId) {
    exists t :: t in s.tins && InChain(s.tins[t], f)
  }

  lemma LinkedIffOwned(s: State, f: FlowId)
    requires Linked(s) && f in s.flows
    ensures IsLinked(s, f) <==> s.flows[f].tin.Some?
  {
    assert FlowLinked(s, f);
    if IsLinked(s, f) {
      var t :| t in s.tins && InChain(s.tins[t], f);
      assert TinLinked(s, t);
    }
  }

  /** The indexes at fq_impl.h:210-215. */
  function MarkBacklogged(s: State, f: FlowId): State
    requires f in s.flows
  {
    if s.flows[f].backlog != 0 then s
    else if f.Hashed? then s.(bitmap := s.bitmap + {f.index})
    else if f.t !in s.tinBacklog then s.(tinBacklog := [f.t] + s.tinBacklog)
    else s
  }

  /** The counters at fq_impl.h:217-226: the packets are in and the flow is owned by `t`. */
  ghost predicate Fits(s: State, t: TinId, f: FlowId, skbs: seq<Skb>) {
    && f in s.flows && t in s.tins
    && s.flows[f].backlog + Bytes(skbs) < TWO32 && s.tins[t].backlogBytes + Bytes(skbs) < TWO32
    && s.tins[t].backlogPackets + |skbs| < TWO32
    && s.memoryUsage + Memory(skbs) < TWO32 && s.backlog + |skbs| < TWO32
  }

  ghost function Append(s: State, t: TinId, f: FlowId, skbs: seq<Skb>): State
    requires Fits(s, t, f, skbs)
  {
    var fl, tn := s.flows[f], s.tins[t];
    s.(flows := s.flows[f := fl.(tin := Some(t), queue := fl.queue + skbs, backlog := fl.backlog + Bytes(skbs))],
       tins := s.tins[t := tn.(backlogBytes := tn.backlogBytes + Bytes(skbs),
                               backlogPackets := tn.backlogPackets + |skbs|)],
       memoryUsage := s.memoryUsage + Memory(skbs),
       backlog := s.backlog + |skbs|)
  }

  /** The new flow at fq_impl.h:228-232. */
  function Activate(c: Config, s: State, t: TinId, f: FlowId): State
    requires f in s.flows && t in s.tins
  {
    s.(flows := s.flows[f := s.flows[f].(deficit := c.quantum)],
       tins := s.tins[t := s.tins[t].(newFlows := s.tins[t].newFlows + [f])])
  }

  ghost function Admit(c: Config, s: State, t: TinId, f: FlowId, skbs: seq<Skb>): State
    requires Fits(s, t, f, skbs)
  {
    var s1 := Append(MarkBacklogged(s, f), t, f, skbs);
    if IsLinked(s, f) then s1 else Activate(c, s1, t, f)
  }

  /** One bound on memory keeps every 32-bit counter from wrapping. */
  lemma MemoryBoundsAll(c: Config, s: State, t: TinId, f: FlowId, skbs: seq<Skb>)
    requires Valid(c, s) && f in s.flows && t in s.tins && s.memoryUsage + Memory(skbs) < TWO32
    ensures Fits(s, t, f, skbs)
  {
    TotalsBound(skbs);
    assert TinCounted(s, t) && FlowOk(c, s.flows[f]);
    FlowWithinTotals(s, f);
    TotalsBound(s.flows[f].queue);
    var memory, bytes := MemoryOf(s.flows), TinBytesOf(s.flows, t);
    forall g | g in s.flows
      ensures bytes[g] <= memory[g] && TinPacketsOf(s.flows, t)[g] <= memory[g] && PacketsOf(s.flows)[g] <= memory[g]
    {
      TotalsBound(s.flows[g].queue);
    }
    TotalMono(bytes, s.tins[t].backlogBytes, memory, s.memoryUsage);
    TotalMono(TinPacketsOf(s.flows, t), s.tins[t].backlogPackets, memory, s.memoryUsage);
    TotalMono(PacketsOf(s.flows), s.backlog, memory, s.memoryUsage);
  }

  lemma AppendFollows(s: State, t: TinId, f: FlowId, skbs: seq<Skb>)
    requires Fits(s, t, f, skbs)
    ensures var s' := Append(s, t, f, skbs);
            && s'.flows[f].tin == Some(t) && s'.flows[f].queue == s.flows[f].queue + skbs
            && Follows(s, s', f, s'.flows[f], t)
  {
    TotalsAppend(s.flows[f].queue, skbs);
  }

  lemma ActivateFollows(c: Config, s: State, s1: State, t: TinId, f: FlowId)
    requires f in s1.flows && Follows(s, s1, f, s1.flows[f], t)
    ensures Follows(s, Activate(c, s1, t, f), f, s1.flows[f].(deficit := c.quantum), t)
  {
    assert s.flows[f := s1.flows[f]][f := s1.flows[f].(deficit := c.quantum)] ==
           s.flows[f := s1.flows[f].(deficit := c.quantum)];
  }

  lemma AdmitFollows(c: Config, s: State, t: TinId, f: FlowId, skbs: seq<Skb>)
    requires Fits(s, t, f, skbs)
    ensures var s' := Admit(c, s, t, f, skbs);
            && s'.flows[f].tin == Some(t) && s'.flows[f].queue == s.flows[f].queue + skbs
            && Follows(s, s', f, s'.flows[f], t)
  {
    var s0 := MarkBacklogged(s, f);
    AppendFollows(s0, t, f, skbs);
    var s1 := Append(s0, t, f, skbs);
    assert Follows(s, s1, f, s1.flows[f], t);
    ActivateFollows(c, s, s1, t, f);
  }

  lemma AdmitCounted(c: Config, s: State, t: TinId, f: FlowId, skbs: seq<Skb>)
    requires Counted(s) && Fits(s, t, f, skbs) && Available(s.flows[f], t)
    ensures Counted(Admit(c, s, t, f, skbs))
  {
    AdmitFollows(c, s, t, f, skbs);
    FollowsCounted(s, Admit(c, s, t, f, skbs), f, Admit(c, s, t, f, skbs).flows[f], t);
  }

  lemma AdmitMarks(c: Config, s: State, t: TinId, f: FlowId, skbs: seq<Skb>)
    requires Fits(s, t, f, skbs) && skbs != []
    ensures var s' := Admit(c, s, t, f, skbs);
            && s'.bitmap == MarkBacklogged(s, f).bitmap && s'.tinBacklog == MarkBacklogged(s, f).tinBacklog
            && s'.flows.Keys == s.flows.Keys && s'.flows[f].queue != []
            && forall g :: g in s.flows && g != f ==> s'.flows[g].queue == s.flows[g].queue
  {
  }

  lemma MarkedIndexed(s: State, s': State, f: FlowId)
    requires Indexed(s) && f in s.flows && (s.flows[f].backlog == 0 <==> s.flows[f].queue == [])
    requires s'.bitmap == MarkBacklogged(s, f).bitmap && s'.tinBacklog == MarkBacklogged(s, f).tinBacklog
    requires s'.flows.Keys == s.flows.Keys && s'.flows[f].queue != []
    requires forall g :: g in s.flows && g != f ==> s'.flows[g].queue == s.flows[g].queue
    ensures Indexed(s')
  {
  }

  lemma AdmitIndexed(c: Config, s: State, t: TinId, f: FlowId, skbs: seq<Skb>)
    requires FlowsOk(c, s) && Indexed(s) && Fits(s, t, f, skbs) && skbs != []
    ensures Indexed(Admit(c, s, t, f, skbs))
  {
    assert FlowOk(c, s.flows[f]);
    TotalsBound(s.flows[f].queue);
    AdmitMarks(c, s, t, f, skbs);
    MarkedIndexed(s, Admit(c, s, t, f, skbs), f);
  }

  lemma AdmitFlowsOk(c: Config, s: State, t: TinId, f: FlowId, skbs: seq<Skb>)
    requires FlowsOk(c, s) && Linked(s) && Fits(s, t, f, skbs)
    requires forall k :: 0 <= k < |skbs| ==> skbs[k].len <= c.maxLen
    requires Available(s.flows[f], t) && ValidConfig(c)
    ensures FlowsOk(c, Admit(c, s, t, f, skbs))
  {
    var s' := Admit(c, s, t, f, skbs);
    LinkedIffOwned(s, f);
    assert FlowOk(c, s.flows[f]);
    TotalsAppend(s.flows[f].queue, skbs);
    assert FlowOk(c, s'.flows[f]);
    forall g | g in s'.flows ensures FlowOk(c, s'.flows[g]) {
      assert g != f ==> s'.flows[g] == s.flows[g];
      assert FlowOk(c, s.flows[g]);
    }
  }

  /** `f` is owned by `t` now and linked there, at the end of the new flows if it was not linked
      before; nothing else about owners and lists has changed. */
  ghost predicate Adopts(s: State, s': State, t: TinId, f: FlowId) {
    && s'.flows.Keys == s.flows.Keys && s'.tins.Keys == s.tins.Keys && f in s.flows && t in s.tins
    && s'.flows[f].tin == Some(t)
    && (forall g :: g in s.flows && g != f ==> s'.flows[g].tin == s.flows[g].tin && s'.flows[g].queue == s.flows[g].queue)
    && (forall u :: u in s.tins && u != t ==>
          s'.tins[u].newFlows == s.tins[u].newFlows && s'.tins[u].oldFlows == s.tins[u].oldFlows)
    && s'.tins[t].oldFlows == s.tins[t].oldFlows
    && s'.tins[t].newFlows == s.tins[t].newFlows + if IsLinked(s, f) then [] else [f]
  }

  lemma AdmitAdopts(c: Config, s: State, t: TinId, f: FlowId, skbs: seq<Skb>)
    requires Fits(s, t, f, skbs)
    ensures Adopts(s, Admit(c, s, t, f, skbs), t, f)
  {
  }

  lemma AdoptedTin(s: State, s': State, t: TinId, f: FlowId, u: TinId)
    requires Linked(s) && Adopts(s, s', t, f) && Available(s.flows[f], t) && u in s.tins
    ensures TinLinked(s', u)
  {
    LinkedIffOwned(s, f);
    assert TinLinked(s, u);
    if u == t && s.flows[f].tin.None? {
      assert !InChain(s.tins[t], f);
    }
    forall g | InChain(s'.tins[u], g) ensures g in s'.flows && s'.flows[g].tin == Some(u) {
      assert InChain(s.tins[u], g) || (u == t && g == f);
      assert !InChain(s.tins[u], f) || u == t;
    }
  }

  lemma AdoptedFlow(s: State, s': State, t: TinId, f: FlowId, g: FlowId)
    requires Linked(s) && Adopts(s, s', t, f) && Available(s.flows[f], t) && g in s.flows && (f.DefaultOf? ==> f.t == t)
    ensures FlowLinked(s', g)
  {
    LinkedIffOwned(s, f);
    assert FlowLinked(s, g);
    if g != f && s.flows[g].tin.Some? {
      assert InChain(s.tins[s.flows[g].tin.value], g);
    }
  }

  lemma AdmitLinked(c: Config, s: State, t: TinId, f: FlowId, skbs: seq<Skb>)
    requires Linked(s) && Fits(s, t, f, skbs) && Available(s.flows[f], t) && (f.DefaultOf? ==> f.t == t)
    ensures Linked(Admit(c, s, t, f, skbs))
  {
    var s' := Admit(c, s, t, f, skbs);
    AdmitAdopts(c, s, t, f, skbs);
    forall u | u in s'.tins ensures TinLinked(s', u) {
      AdoptedTin(s, s', t, f, u);
    }
    forall g | g in s'.flows ensures FlowLinked(s', g) {
      AdoptedFlow(s, s', t, f, g);
    }
  }

  /** The same flows and tins are there. */
  lemma PresentStays(c: Config, s: State, s': State)
    requires Present(c, s) && s'.flows.Keys == s.flows.Keys && s'.tins.Keys == s.tins.Keys
    ensures Present(c, s')
  {
    forall i: nat ensures Hashed(i) in s'.flows <==> i < c.flowsCnt {
      assert Hashed(i) in s.flows.Keys <==> Hashed(i) in s'.flows.Keys;
    }
    forall t: TinId ensures DefaultOf(t) in s'.flows <==> t in s'.tins {
      assert DefaultOf(t) in s.flows.Keys <==> DefaultOf(t) in s'.flows.Keys;
      assert t in s.tins.Keys <==> t in s'.tins.Keys;
    }
  }

  /** Admission keeps the invariant. */
  lemma AdmitValid(c: Config, s: State, t: TinId, f: FlowId, skbs: seq<Skb>)
    requires ValidConfig(c) && Valid(c, s) && f in s.flows && t in s.tins && Available(s.flows[f], t)
    requires f.DefaultOf? ==> f.t == t
    requires skbs != [] && s.memoryUsage + Memory(skbs) < TWO32
    requires forall k :: 0 <= k < |skbs| ==> skbs[k].len <= c.maxLen
    ensures Fits(s, t, f, skbs) && Valid(c, Admit(c, s, t, f, skbs))
  {
    MemoryBoundsAll(c, s, t, f, skbs);
    AdmitCounted(c, s, t, f, skbs);
    AdmitIndexed(c, s, t, f, skbs);
    AdmitFlowsOk(c, s, t, f, skbs);
    AdmitLinked(c, s, t, f, skbs);
    AdmitAdopts(c, s, t, f, skbs);
    PresentStays(c, s, Admit(c, s, t, f, skbs));
  }
}
