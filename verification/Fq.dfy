/** The operations of the fair-queueing scheduler (include/net/fq_impl.h). */
module Fq {
  import opened Common
  import opened FqState
  import opened FqSteps
  import opened FqSchedule
  import opened FqFair
  import opened FqOverload

  /** The parameters set by fq_init (fq_impl.h:349-360). */
  function DefaultConfig(flowsCnt: nat, maxLen: nat): Config {
    Config(if flowsCnt < 1 then 1 else flowsCnt, 8192, 16 * 1024 * 1024, 300, maxLen)
  }

  const NoFlow := Flow(None, [], 0, 0)
  const NoTin := Tin([], [], 0, 0, 0, 0, 0, 0, 0)

  // ----- creation -----

  function InitialState(c: Config): State {
    State(map i | 0 <= i < c.flowsCnt :: Hashed(i) := NoFlow, map[], {}, [], 0, 0, 0, 0, 0)
  }

  lemma InitialValid(c: Config)
    ensures Valid(c, InitialState(c))
  {
    var s := InitialState(c);
    forall f | f in s.flows ensures FlowOk(c, s.flows[f]) && FlowLinked(s, f) {
    }
    TotalMeans(PacketsOf(s.flows), Sum(PacketsOf(s.flows)));
    TotalMeans(MemoryOf(s.flows), Sum(MemoryOf(s.flows)));
    SumZero(PacketsOf(s.flows));
    SumZero(MemoryOf(s.flows));
  }

  function WithTin(s: State, t: TinId): State {
    s.(tins := s.tins[t := NoTin], flows := s.flows[DefaultOf(t) := NoFlow])
  }

  lemma TotalExtend(m: map<FlowId, nat>, n: nat, k: FlowId)
    requires Total(m, n) && k !in m
    ensures Total(m[k := 0], n)
  {
    TotalMeans(m, n);
    SumPick(m[k := 0], k);
    assert m[k := 0] - {k} == m;
    TotalMeans(m[k := 0], n);
  }

  lemma WithTinOther(s: State, t: TinId, u: TinId)
    requires u in s.tins && TinCounted(s, u) && DefaultOf(t) !in s.flows && u != t
    ensures TinCounted(WithTin(s, t), u)
  {
    var s', d := WithTin(s, t), DefaultOf(t);
    TotalExtend(TinBytesOf(s.flows, u), s.tins[u].backlogBytes, d);
    assert TinBytesOf(s'.flows, u) == TinBytesOf(s.flows, u)[d := 0];
    TotalExtend(TinPacketsOf(s.flows, u), s.tins[u].backlogPackets, d);
    assert TinPacketsOf(s'.flows, u) == TinPacketsOf(s.flows, u)[d := 0];
  }

  lemma WithTinOwn(s: State, t: TinId)
    requires Linked(s) && t !in s.tins
    ensures TinCounted(WithTin(s, t), t)
  {
    var s' := WithTin(s, t);
    forall f | f in s'.flows ensures s'.flows[f].tin != Some(t) {
      assert f != DefaultOf(t) ==> FlowLinked(s, f);
    }
    NoWeight(TinBytesOf(s'.flows, t));
    NoWeight(TinPacketsOf(s'.flows, t));
  }

  lemma WithTinCounted(c: Config, s: State, t: TinId)
    requires Present(c, s) && Linked(s) && Counted(s) && t !in s.tins
    ensures Counted(WithTin(s, t))
  {
    var s', d := WithTin(s, t), DefaultOf(t);
    assert d !in s.flows;
    TotalExtend(PacketsOf(s.flows), s.backlog, d);
    assert PacketsOf(s'.flows) == PacketsOf(s.flows)[d := 0];
    TotalExtend(MemoryOf(s.flows), s.memoryUsage, d);
    assert MemoryOf(s'.flows) == MemoryOf(s.flows)[d := 0];
    WithTinOwn(s, t);
    forall u | u in s'.tins ensures TinCounted(s', u) {
      if u != t {
        assert TinCounted(s, u);
        WithTinOther(s, t, u);
      }
    }
  }

  lemma NoWeight(m: map<FlowId, nat>)
    requires forall k :: k in m ==> m[k] == 0
    ensures Total(m, 0)
  {
    SumZero(m);
    TotalMeans(m, 0);
  }

  lemma WithTinLinked(c: Config, s: State, t: TinId)
    requires Present(c, s) && Linked(s) && t !in s.tins
    ensures Linked(WithTin(s, t))
  {
    var s' := WithTin(s, t);
    assert DefaultOf(t) !in s.flows;
    forall u | u in s'.tins ensures TinLinked(s', u) {
      if u != t {
        assert TinLinked(s, u);
        forall g | InChain(s'.tins[u], g) ensures g in s'.flows && s'.flows[g].tin == Some(u) {
          assert InChain(s.tins[u], g);
        }
      }
    }
    forall g | g in s'.flows ensures FlowLinked(s', g) {
      if g != DefaultOf(t) {
        assert FlowLinked(s, g);
      }
    }
  }

  lemma WithTinValid(c: Config, s: State, t: TinId)
    requires Valid(c, s) && t !in s.tins
    ensures Valid(c, WithTin(s, t))
  {
    var s' := WithTin(s, t);
    WithTinCounted(c, s, t);
    WithTinLinked(c, s, t);
    forall g | g in s'.flows ensures FlowOk(c, s'.flows[g]) {
      if g != DefaultOf(t) {
        assert FlowOk(c, s.flows[g]);
      }
    }
  }

  // ----- schedules -----

  /** Same lists, owners and deficits. */
  ghost predicate SameSchedule(s: State, s': State) {
    SameLinks(s, s') && forall f :: f in s.flows ==> s'.flows[f].deficit == s.flows[f].deficit
  }

  /** Same old flows, and same deficits of the flows that were linked. */
  ghost predicate SameOlds(s: State, s': State) {
    && (forall t :: t in s.tins ==> t in s'.tins && s'.tins[t].oldFlows == s.tins[t].oldFlows)
    && (forall f :: f in s.flows ==> f in s'.flows)
    && (forall f :: f in s.flows && s.flows[f].tin.Some? ==> s'.flows[f].deficit == s.flows[f].deficit)
  }

  lemma SameOldsPaced(c: Config, s: State, l: Ledger, s': State)
    requires Linked(s) && SameOlds(s, s')
    ensures Paced(c, Moment(s, l), Moment(s', l))
  {
    forall t, a, b | Contend(s, t, a, b) && InOld(s', t, a) && InOld(s', t, b)
      ensures KeepsPace(c, s, l, s', l, t, a, b)
    {
      assert TinLinked(s, t) && InChain(s.tins[t], a) && InChain(s.tins[t], b);
      UntouchedKeepsPace(c, s, l, s', t, a, b);
    }
  }

  /** Only statistics counters differ. */
  ghost predicate SameButStats(s: State, s': State) {
    SameLoad(s, s') && SameLinks(s, s') && s'.flows == s.flows
  }

  lemma StatsKeepValid(c: Config, s: State, s': State)
    requires Valid(c, s) && SameButStats(s, s')
    ensures Valid(c, s')
  {
    SameLoadKeeps(c, s, s');
    SameLinksKeeps(s, s');
    forall f | f in s'.flows ensures FlowOk(c, s'.flows[f]) {
      assert FlowOk(c, s.flows[f]);
    }
  }

  /** `q` is what is left of `q0` after packets went from its head. */
  predicate IsSuffix(q: seq<Skb>, q0: seq<Skb>) {
    |q| <= |q0| && q == q0[|q0| - |q|..]
  }

  lemma SuffixIsSubqueue(q: seq<Skb>, k: nat)
    requires k <= |q|
    ensures Subqueue(q[k..], q) && Bytes(q) - Bytes(q[k..]) == Bytes(q[..k]) && Memory(q) - Memory(q[k..]) == Memory(q[..k])
  {
    assert q == q[..k] + q[k..];
    TotalsAppend(q[..k], q[k..]);
  }

  lemma ShrinkIs(s: State, f: FlowId, q: seq<Skb>, packets: nat, bytes: nat, truesize: nat)
    requires CanShrink(s, f, q) && packets == |s.flows[f].queue| - |q|
    requires bytes == Bytes(s.flows[f].queue) - Bytes(q) && truesize == Memory(s.flows[f].queue) - Memory(q)
    ensures CanRemove(SetQueue(s, f, q), f, packets, bytes, truesize)
    ensures AdjustRemoval(SetQueue(s, f, q), f, packets, bytes, truesize) == Shrink(s, f, q)
  {
  }

  lemma BackloggedFlow(c: Config, s: State, f: FlowId)
    requires FqState.Valid(c, s) && f in s.flows && (s.flows[f].backlog > 0 || s.flows[f].queue != [])
    ensures s.flows[f].queue != [] && s.flows[f].tin.Some?
  {
    assert FlowOk(c, s.flows[f]) && FlowLinked(s, f);
  }

  /** Taking the first `k` packets of a flow and adjusting the counters for them. */
  lemma RemoveHead(c: Config, s: State, f: FlowId, k: nat)
    requires FqState.Valid(c, s) && f in s.flows && 1 <= k <= |s.flows[f].queue|
    ensures var q := s.flows[f].queue;
            && CanShrink(s, f, q[k..]) && FqState.Valid(c, Shrink(s, f, q[k..]))
            && CanRemove(SetQueue(s, f, q[k..]), f, k, Bytes(q[..k]), Memory(q[..k]))
            && AdjustRemoval(SetQueue(s, f, q[k..]), f, k, Bytes(q[..k]), Memory(q[..k])) == Shrink(s, f, q[k..])
  {
    var q := s.flows[f].queue;
    BackloggedFlow(c, s, f);
    SuffixIsSubqueue(q, k);
    ShrinkValid(c, s, f, q[k..]);
    ShrinkIs(s, f, q[k..], k, Bytes(q[..k]), Memory(q[..k]));
  }

  /** Every queue is a suffix of what it was. */
  ghost predicate OnlyDropped(s: State, s': State) {
    s'.flows.Keys == s.flows.Keys && forall f :: f in s.flows ==> IsSuffix(s'.flows[f].queue, s.flows[f].queue)
  }

  /** The loop of fq_flow_drop (fq_impl.h:73-83). */
  method TakePending(q: seq<Skb>) returns (packets: nat, bytes: nat, truesize: nat, rest: seq<Skb>)
    ensures packets == DropCount(|q|) <= |q| && rest == q[packets..]
    ensures bytes == Bytes(q[..packets]) && truesize == Memory(q[..packets])
  {
    var pending := if |q| / 2 < 32 then |q| / 2 else 32;
    packets, bytes, truesize, rest := 0, 0, 0, q;
    while true
      invariant packets <= |q| && (packets == 0 || packets < pending)
      invariant rest == q[packets..]
      invariant bytes == Bytes(q[..packets]) && truesize == Memory(q[..packets])
      decreases |rest|
    {
      if rest == [] {
        break;
      }
      var skb := rest[0];
      assert q[..packets + 1] == q[..packets] + [skb];
      TotalsAppend(q[..packets], [skb]);
      packets, bytes, truesize, rest := packets + 1, bytes + skb.len, truesize + skb.truesize, rest[1..];
      if packets >= pending {
        break;
      }
    }
  }

  // ----- serving a flow -----

  /** A packet handed out by a dequeue, and the flow it comes from. */
  datatype Delivery = Delivery(from: FlowId, skb: Skb)

  /** The accounts of fq_tin_dequeue after a packet was taken (fq_impl.h:130-132). */
  function Charged(s: State, t: TinId, f: FlowId, len: nat): State
    requires t in s.tins && f in s.flows
  {
    s.(flows := s.flows[f := s.flows[f].(deficit := s.flows[f].deficit - len)],
       tins := s.tins[t := s.tins[t].(txBytes := Bump(s.tins[t].txBytes, len), txPackets := Bump(s.tins[t].txPackets, 1))])
  }

  lemma ChargedValid(c: Config, s: State, t: TinId, f: FlowId, len: nat)
    requires FqState.Valid(c, s) && t in s.tins && f in s.flows && s.flows[f].deficit > 0 && len <= c.maxLen
    ensures FqState.Valid(c, Charged(s, t, f, len))
  {
    var s' := Charged(s, t, f, len);
    SameLoadKeeps(c, s, s');
    SameLinksKeeps(s, s');
    forall g | g in s'.flows ensures FlowOk(c, s'.flows[g]) {
      assert FlowOk(c, s.flows[g]);
    }
  }

  /** The state after the first packet of `f` was sent for `t`. */
  ghost function Served(s: State, t: TinId, f: FlowId): State
    requires f in s.flows && t in s.tins && s.flows[f].queue != [] && CanShrink(s, f, s.flows[f].queue[1..])
  {
    Charged(Shrink(s, f, s.flows[f].queue[1..]), t, f, s.flows[f].queue[0].len)
  }

  lemma ServedValid(c: Config, s: State, t: TinId, f: FlowId)
    requires FqState.Valid(c, s) && t in s.tins && f in s.flows && s.flows[f].queue != [] && s.flows[f].deficit > 0
    ensures CanShrink(s, f, s.flows[f].queue[1..]) && FqState.Valid(c, Served(s, t, f))
  {
    RemoveHead(c, s, f, 1);
    assert FlowOk(c, s.flows[f]);
    ChargedValid(c, Shrink(s, f, s.flows[f].queue[1..]), t, f, s.flows[f].queue[0].len);
  }

  /** Serving a flow leaves the lists alone and takes the length off its deficit. */
  lemma ServedSchedule(s: State, t: TinId, f: FlowId)
    requires t in s.tins && f in s.flows && s.flows[f].queue != [] && CanShrink(s, f, s.flows[f].queue[1..])
    ensures var s' := Served(s, t, f);
            && s'.flows.Keys == s.flows.Keys && s'.tins.Keys == s.tins.Keys
            && (forall u :: u in s.tins ==> s'.tins[u].oldFlows == s.tins[u].oldFlows && s'.tins[u].newFlows == s.tins[u].newFlows)
            && (forall g :: g in s.flows ==>
                  s'.flows[g].deficit == s.flows[g].deficit - if g == f then s.flows[f].queue[0].len else 0)
  {
    ShrinkSchedule(s, f, s.flows[f].queue[1..]);
  }

  lemma ServedKeepsPace(c: Config, s: State, l: Ledger, t: TinId, f: FlowId, u: TinId, a: FlowId, b: FlowId)
    requires t in s.tins && f in s.flows && s.flows[f].queue != [] && CanShrink(s, f, s.flows[f].queue[1..])
    requires InOld(s, u, a) && InOld(s, u, b)
    ensures KeepsPace(c, s, l, Served(s, t, f), Send(l, f, s.flows[f].queue[0].len), u, a, b)
  {
    ServedSchedule(s, t, f);
  }

  lemma ServedPaced(c: Config, s0: State, l0: Ledger, s: State, l: Ledger, t: TinId, f: FlowId)
    requires OnPace(c, s0, l0, s, l) && t in s.tins && f in s.flows && s.flows[f].queue != []
    requires CanShrink(s, f, s.flows[f].queue[1..])
    ensures Paced(c, Moment(s0, l0), Moment(Served(s, t, f), Send(l, f, s.flows[f].queue[0].len)))
  {
    var s', l' := Served(s, t, f), Send(l, f, s.flows[f].queue[0].len);
    forall u, a, b | Contend(s0, u, a, b) && InOld(s', u, a) && InOld(s', u, b)
      ensures KeepsPace(c, s0, l0, s', l', u, a, b)
    {
      assert KeepsPace(c, s0, l0, s, l, u, a, b);
      ServedKeepsPace(c, s, l, t, f, u, a, b);
      PaceChains(c, s0, l0, s, l, s', l', u, a, b);
    }
  }

  lemma OnPacePaced(c: Config, s0: State, l0: Ledger, s: State, l: Ledger)
    requires OnPace(c, s0, l0, s, l)
    ensures Paced(c, Moment(s0, l0), Moment(s, l))
  {
  }

  /** Where the loop of fq_tin_dequeue can be: valid, with no packet moved since `s0` and
      every two contending flows on pace. */
  ghost predicate Looping(c: Config, s0: State, l0: Ledger, s: State, l: Ledger, t: TinId) {
    ValidConfig(c) && FqState.Valid(c, s) && t in s.tins && OnPace(c, s0, l0, s, l)
  }

  lemma ReplenishStep(c: Config, s0: State, l0: Ledger, s: State, l: Ledger, t: TinId, f: FlowId)
    requires Looping(c, s0, l0, s, l, t) && IsHead(s.tins[t], f) && f in s.flows && s.flows[f].deficit <= 0
    ensures Looping(c, s0, l0, Replenish(c, s, t, f), Grant(l, f, c.quantum), t)
    ensures Work(c, Replenish(c, s, t, f), t) < Work(c, s, t)
  {
    HeadOwned(s, t, f);
    assert TinLinked(s, t);
    ReplenishValid(c, s, t, f);
    ReplenishWork(c, s, t, f);
    OnPaceReplenish(c, s0, l0, s, l, t, f);
  }

  /** The flow the callback had no packet for: to the old flows if it was new and there are
      any, else out of the tin (fq_impl.h:118-128). */
  function Retired(s: State, t: TinId, f: FlowId): State
    requires t in s.tins && f in s.flows
  {
    if s.tins[t].newFlows != [] && s.tins[t].oldFlows != [] then MoveToOld(s, t, f) else Unlink(s, t, f)
  }

  lemma RetireStep(c: Config, s0: State, l0: Ledger, s: State, l: Ledger, t: TinId, f: FlowId)
    requires Looping(c, s0, l0, s, l, t) && IsHead(s.tins[t], f) && f in s.flows && s.flows[f].queue == []
    ensures Looping(c, s0, l0, Retired(s, t, f), l, t)
    ensures Work(c, Retired(s, t, f), t) < Work(c, s, t)
  {
    HeadOwned(s, t, f);
    assert TinLinked(s, t) && FlowOk(c, s.flows[f]);
    if s.tins[t].newFlows != [] && s.tins[t].oldFlows != [] {
      MoveValid(c, s, t, f);
      MoveWork(c, s, t, f);
    } else {
      UnlinkValid(c, s, t, f);
      UnlinkWork(c, s, t, f);
    }
    OnPaceRetire(c, s0, l0, s, l, Retired(s, t, f), t, f);
  }

  function Head(tn: Tin): FlowId
    requires tn.newFlows != [] || tn.oldFlows != []
  {
    if tn.newFlows != [] then tn.newFlows[0] else tn.oldFlows[0]
  }

  /** Nothing is left to serve, or the flow the loop looks at has credit and a packet. */
  predicate Settled(s: State, t: TinId)
    requires t in s.tins
  {
    var tn := s.tins[t];
    (tn.newFlows == [] && tn.oldFlows == []) ||
    (Head(tn) in s.flows && s.flows[Head(tn)].deficit > 0 && s.flows[Head(tn)].queue != [])
  }

  /** One turn of the loop that hands out no packet. */
  function Advance(c: Config, s: State, t: TinId): State
    requires t in s.tins && !Settled(s, t) && Head(s.tins[t]) in s.flows
  {
    var f := Head(s.tins[t]);
    if s.flows[f].deficit <= 0 then Replenish(c, s, t, f) else Retired(s, t, f)
  }

  lemma AdvanceStep(c: Config, s: State, t: TinId)
    requires ValidConfig(c) && FqState.Valid(c, s) && t in s.tins && !Settled(s, t)
    ensures Head(s.tins[t]) in s.flows && t in Advance(c, s, t).tins
    ensures FqState.Valid(c, Advance(c, s, t)) && Work(c, Advance(c, s, t), t) < Work(c, s, t)
  {
    var f := Head(s.tins[t]);
    HeadOwned(s, t, f);
    OnPaceStart(c, s, EmptyLedger);
    if s.flows[f].deficit <= 0 {
      ReplenishStep(c, s, EmptyLedger, s, EmptyLedger, t, f);
    } else {
      RetireStep(c, s, EmptyLedger, s, EmptyLedger, t, f);
    }
  }

  /** The state in which the loop of fq_tin_dequeue stops. */
  ghost function Scan(c: Config, s: State, t: TinId): State
    requires ValidConfig(c) && FqState.Valid(c, s) && t in s.tins
    decreases Work(c, s, t)
  {
    if Settled(s, t) then s
    else
      AdvanceStep(c, s, t);
      Scan(c, Advance(c, s, t), t)
  }

  /** From `s` the loop stops where it does from `s0`. */
  ghost predicate Underway(c: Config, s0: State, s: State, t: TinId) {
    && ValidConfig(c) && FqState.Valid(c, s0) && FqState.Valid(c, s) && t in s0.tins && t in s.tins
    && Scan(c, s, t) == Scan(c, s0, t)
  }

  lemma UnderwayOn(c: Config, s0: State, s: State, t: TinId)
    requires Underway(c, s0, s, t) && !Settled(s, t)
    ensures Head(s.tins[t]) in s.flows && t in Advance(c, s, t).tins && Underway(c, s0, Advance(c, s, t), t)
  {
    AdvanceStep(c, s, t);
  }

  lemma UnderwayEnds(c: Config, s0: State, s: State, t: TinId)
    requires Underway(c, s0, s, t) && Settled(s, t)
    ensures Scan(c, s0, t) == s
  {
  }

  /** The state in which fq_tin_dequeue leaves the tin, and the flow it takes a packet from. */
  ghost predicate Dequeued(c: Config, s: State, t: TinId, s': State, out: Option<Delivery>) {
    && ValidConfig(c) && FqState.Valid(c, s) && t in s.tins
    && var stop := Scan(c, s, t);
       && t in stop.tins && Settled(stop, t)
       && var tn := stop.tins[t];
          if tn.newFlows == [] && tn.oldFlows == [] then out.None? && s' == stop
          else
            && out.Some? && out.value.from == Head(tn) && out.value.skb == stop.flows[Head(tn)].queue[0]
            && CanShrink(stop, Head(tn), stop.flows[Head(tn)].queue[1..]) && s' == Served(stop, t, Head(tn))
  }

  /** Flows that the tin does not own are as before. */
  ghost predicate SameElsewhere(s: State, s': State, t: TinId) {
    && s'.flows.Keys == s.flows.Keys
    && (forall g :: g in s.flows && s.flows[g].tin != Some(t) ==> s'.flows[g] == s.flows[g])
  }

  /** So are the other tins, and what the tin has counted as sent. */
  ghost predicate OnlyOwn(s: State, s': State, t: TinId) {
    && t in s.tins && s'.tins.Keys == s.tins.Keys && SameElsewhere(s, s', t)
    && s'.tins[t].txBytes == s.tins[t].txBytes && s'.tins[t].txPackets == s.tins[t].txPackets
    && (forall u :: u in s.tins && u != t ==> s'.tins[u] == s.tins[u])
  }

  lemma AdvanceOwn(c: Config, s: State, t: TinId)
    requires t in s.tins && !Settled(s, t) && Head(s.tins[t]) in s.flows && s.flows[Head(s.tins[t])].tin == Some(t)
    ensures OnlyOwn(s, Advance(c, s, t), t)
  {
  }

  lemma OwnChains(s0: State, s: State, s': State, t: TinId)
    requires OnlyOwn(s0, s, t) && OnlyOwn(s, s', t)
    ensures OnlyOwn(s0, s', t)
  {
  }

  lemma {:induction false} ScanOwn(c: Config, s: State, t: TinId)
    requires ValidConfig(c) && FqState.Valid(c, s) && t in s.tins
    ensures OnlyOwn(s, Scan(c, s, t), t) && FqState.Valid(c, Scan(c, s, t))
    decreases Work(c, s, t)
  {
    if !Settled(s, t) {
      AdvanceStep(c, s, t);
      HeadOwned(s, t, Head(s.tins[t]));
      AdvanceOwn(c, s, t);
      ScanOwn(c, Advance(c, s, t), t);
      OwnChains(s, Advance(c, s, t), Scan(c, Advance(c, s, t), t), t);
    }
  }

  /** tx_bytes and tx_packets of the tin count the packets handed out, and no other tin changes. */
  lemma DequeuedCounts(c: Config, s: State, t: TinId, s': State, out: Option<Delivery>)
    requires Dequeued(c, s, t, s', out)
    ensures s'.tins.Keys == s.tins.Keys && forall u :: u in s.tins && u != t ==> s'.tins[u] == s.tins[u]
    ensures var tin, tin' := s.tins[t], s'.tins[t];
            && tin'.txBytes == (if out.Some? then Bump(tin.txBytes, out.value.skb.len) else tin.txBytes)
            && tin'.txPackets == (if out.Some? then Bump(tin.txPackets, 1) else tin.txPackets)
    ensures SameElsewhere(s, s', t)
  {
    ScanOwn(c, s, t);
    var stop := Scan(c, s, t);
    if out.Some? {
      var h := Head(stop.tins[t]);
      HeadOwned(stop, t, h);
      ServedCounts(stop, t, h);
    }
  }

  lemma ServedCounts(s: State, t: TinId, f: FlowId)
    requires t in s.tins && f in s.flows && s.flows[f].tin == Some(t) && s.flows[f].queue != []
    requires CanShrink(s, f, s.flows[f].queue[1..])
    ensures var s', len := Served(s, t, f), s.flows[f].queue[0].len;
            && s'.tins.Keys == s.tins.Keys && (forall u :: u in s.tins && u != t ==> s'.tins[u] == s.tins[u])
            && s'.tins[t].txBytes == Bump(s.tins[t].txBytes, len) && s'.tins[t].txPackets == Bump(s.tins[t].txPackets, 1)
            && s'.flows.Keys == s.flows.Keys && (forall g :: g in s.flows && g != f ==> s'.flows[g] == s.flows[g])
  {
  }

  /** A packet comes from a flow of the tin and from nowhere else. */
  ghost predicate Delivered(s0: State, s: State, t: TinId, f: FlowId, skb: Skb) {
    && f in s0.flows && s.flows.Keys == s0.flows.Keys && s0.flows[f].tin == Some(t)
    && s0.flows[f].queue == [skb] + s.flows[f].queue
    && forall g :: g in s0.flows && g != f ==> s.flows[g].queue == s0.flows[g].queue
  }

  lemma ServedDelivers(s0: State, s: State, t: TinId, f: FlowId)
    requires SameLoad(s0, s) && t in s.tins && f in s.flows && s.flows[f].tin == Some(t) && s.flows[f].queue != []
    requires CanShrink(s, f, s.flows[f].queue[1..])
    ensures Delivered(s0, Served(s, t, f), t, f, s.flows[f].queue[0])
  {
  }

  lemma HoldsPackets(c: Config, s0: State, s: State, t: TinId, f: FlowId)
    requires FqState.Valid(c, s0) && SameLoad(s0, s) && t in s.tins && f in s.flows
    requires s.flows[f].tin == Some(t) && s.flows[f].queue != []
    ensures s0.tins[t].backlogPackets > 0
  {
    FlowWithinTotals(s0, f);
  }

  lemma ServeStep(c: Config, s0: State, l0: Ledger, s: State, l: Ledger, t: TinId, f: FlowId)
    requires Looping(c, s0, l0, s, l, t) && FqState.Valid(c, s0) && IsHead(s.tins[t], f) && f in s.flows
    requires s.flows[f].queue != [] && s.flows[f].deficit > 0
    ensures CanShrink(s, f, s.flows[f].queue[1..]) && FqState.Valid(c, Served(s, t, f))
    ensures Paced(c, Moment(s0, l0), Moment(Served(s, t, f), Send(l, f, s.flows[f].queue[0].len)))
    ensures Delivered(s0, Served(s, t, f), t, f, s.flows[f].queue[0])
    ensures s0.tins[t].backlogPackets > 0
    ensures SentOnly(l0, Send(l, f, s.flows[f].queue[0].len), f, s.flows[f].queue[0].len)
  {
    HeadOwned(s, t, f);
    ServedValid(c, s, t, f);
    ServedPaced(c, s0, l0, s, l, t, f);
    ServedDelivers(s0, s, t, f);
    HoldsPackets(c, s0, s, t, f);
  }

  lemma DoneStep(c: Config, s0: State, l0: Ledger, s: State, l: Ledger, t: TinId)
    requires Looping(c, s0, l0, s, l, t) && FqState.Valid(c, s0) && s.tins[t].newFlows == [] && s.tins[t].oldFlows == []
    ensures Paced(c, Moment(s0, l0), Moment(s, l)) && s0.tins[t].backlogPackets == 0 && SameLoad(s0, s) && NothingSent(l0, l)
  {
    UnlinkedEmpty(s, t);
    SameLoadTinEmpty(s0, s, t);
    TinEmptyIffZero(s0, t);
    OnPacePaced(c, s0, l0, s, l);
  }

  /** A tin without linked flows holds no packets. */
  lemma UnlinkedEmpty(s: State, t: TinId)
    requires Linked(s) && t in s.tins && s.tins[t].newFlows == [] && s.tins[t].oldFlows == []
    ensures TinEmpty(s, t)
  {
    forall f | f in s.flows && s.flows[f].tin == Some(t) ensures s.flows[f].queue == [] {
      assert FlowLinked(s, f);
    }
  }

  lemma SameLoadTinEmpty(s: State, s': State, t: TinId)
    requires SameLoad(s, s') && Linked(s) && Linked(s')
    ensures TinEmpty(s, t) <==> TinEmpty(s', t)
  {
    forall f | f in s.flows ensures s.flows[f].queue != [] ==> s'.flows[f].tin == s.flows[f].tin {
    }
  }

  /** Everything the loop of fq_tin_dequeue keeps. */
  ghost predicate InLoop(c: Config, s0: State, l0: Ledger, s: State, l: Ledger, t: TinId) {
    Looping(c, s0, l0, s, l, t) && Underway(c, s0, s, t)
  }

  lemma LoopStarts(c: Config, s: State, l: Ledger, t: TinId)
    requires ValidConfig(c) && FqState.Valid(c, s) && t in s.tins
    ensures InLoop(c, s, l, s, l, t)
  {
    OnPaceStart(c, s, l);
  }

  lemma LoopReplenishes(c: Config, s0: State, l0: Ledger, s: State, l: Ledger, t: TinId, f: FlowId)
    requires InLoop(c, s0, l0, s, l, t) && IsHead(s.tins[t], f) && f in s.flows && s.flows[f].deficit <= 0
    ensures InLoop(c, s0, l0, Replenish(c, s, t, f), Grant(l, f, c.quantum), t)
    ensures Work(c, Replenish(c, s, t, f), t) < Work(c, s, t)
  {
    ReplenishStep(c, s0, l0, s, l, t, f);
    UnderwayOn(c, s0, s, t);
  }

  lemma LoopRetires(c: Config, s0: State, l0: Ledger, s: State, l: Ledger, t: TinId, f: FlowId)
    requires InLoop(c, s0, l0, s, l, t) && IsHead(s.tins[t], f) && f in s.flows && s.flows[f].queue == []
    requires s.flows[f].deficit > 0
    ensures InLoop(c, s0, l0, Retired(s, t, f), l, t)
    ensures Work(c, Retired(s, t, f), t) < Work(c, s, t)
  {
    RetireStep(c, s0, l0, s, l, t, f);
    UnderwayOn(c, s0, s, t);
  }

  lemma LoopServes(c: Config, s0: State, l0: Ledger, s: State, l: Ledger, t: TinId, f: FlowId)
    requires InLoop(c, s0, l0, s, l, t) && IsHead(s.tins[t], f) && f in s.flows
    requires s.flows[f].queue != [] && s.flows[f].deficit > 0
    ensures CanShrink(s, f, s.flows[f].queue[1..])
    ensures var s', p := Served(s, t, f), s.flows[f].queue[0];
            && Dequeued(c, s0, t, s', Some(Delivery(f, p))) && Delivered(s0, s', t, f, p) && FqState.Valid(c, s')
            && SentOnly(l0, Send(l, f, p.len), f, p.len) && Paced(c, Moment(s0, l0), Moment(s', Send(l, f, p.len)))
    ensures s0.tins[t].backlogPackets > 0
  {
    ServeStep(c, s0, l0, s, l, t, f);
    UnderwayEnds(c, s0, s, t);
  }

  lemma LoopEnds(c: Config, s0: State, l0: Ledger, s: State, l: Ledger, t: TinId)
    requires InLoop(c, s0, l0, s, l, t) && s.tins[t].newFlows == [] && s.tins[t].oldFlows == []
    ensures Dequeued(c, s0, t, s, None) && Paced(c, Moment(s0, l0), Moment(s, l))
    ensures s0.tins[t].backlogPackets == 0 && SameLoad(s0, s) && NothingSent(l0, l)
  {
    DoneStep(c, s0, l0, s, l, t);
    UnderwayEnds(c, s0, s, t);
  }

  // ----- taking packets in -----

  /** fq_flow_idx: reciprocal_scale of a 32-bit hash. */
  function FlowIndex(hash: U32, flowsCnt: nat): nat {
    hash * flowsCnt / TWO32
  }

  /** The index is always that of a hashed flow. */
  lemma FlowIndexInRange(hash: U32, flowsCnt: nat)
    requires flowsCnt > 0
    ensures FlowIndex(hash, flowsCnt) < flowsCnt
  {
    var p, gap := hash * flowsCnt, (TWO32 - hash) * flowsCnt;
    assert gap > 0;
    assert p + gap == TWO32 * flowsCnt;
  }

  /** Every flow gets an equal share of the hashes, in order, and none is left out. */
  lemma FlowIndexShares(hash: U32, flowsCnt: nat, i: nat)
    requires flowsCnt > 0
    ensures FlowIndex(hash, flowsCnt) == i <==> i * TWO32 <= hash * flowsCnt < (i + 1) * TWO32
  {
  }

  lemma FlowIndexOnto(flowsCnt: nat, i: nat)
    requires i < flowsCnt <= TWO32
    ensures exists hash: U32 :: FlowIndex(hash, flowsCnt) == i
  {
    var n, p := flowsCnt, i * TWO32;
    var h := (p + n - 1) / n;
    assert p <= h * n < p + n;
    assert h < TWO32 by {
      if h >= TWO32 {
        Scaled(TWO32, h, n);
        assert false;
      }
    }
    FlowIndexShares(h, n, i);
  }

  lemma Scaled(a: nat, b: nat, n: nat)
    requires a <= b
    ensures a * n <= b * n
  {
  }

  /** One turn of the loop at fq_impl.h:218-226. */
  function AppendSkb(s: State, t: TinId, f: FlowId, p: Skb): State
    requires f in s.flows && t in s.tins
    requires s.flows[f].backlog + p.len < TWO32 && s.tins[t].backlogBytes + p.len < TWO32
    requires s.tins[t].backlogPackets + 1 < TWO32 && s.memoryUsage + p.truesize < TWO32 && s.backlog + 1 < TWO32
  {
    var fl, tn := s.flows[f], s.tins[t];
    s.(flows := s.flows[f := fl.(backlog := fl.backlog + p.len, queue := fl.queue + [p])],
       tins := s.tins[t := tn.(backlogBytes := tn.backlogBytes + p.len, backlogPackets := tn.backlogPackets + 1)],
       memoryUsage := s.memoryUsage + p.truesize,
       backlog := s.backlog + 1)
  }

  lemma FitsPrefix(s: State, t: TinId, f: FlowId, skbs: seq<Skb>, k: nat)
    requires Fits(s, t, f, skbs) && k <= |skbs|
    ensures Fits(s, t, f, skbs[..k])
  {
    SuffixIsSubqueue(skbs, k);
  }

  lemma AppendOneMore(s: State, t: TinId, f: FlowId, skbs: seq<Skb>, k: nat)
    requires Fits(s, t, f, skbs) && k < |skbs|
    ensures Fits(s, t, f, skbs[..k]) && Fits(s, t, f, skbs[..k + 1])
    ensures var s1 := Append(s, t, f, skbs[..k]);
            && s1.flows[f].backlog + skbs[k].len < TWO32 && s1.tins[t].backlogBytes + skbs[k].len < TWO32
            && s1.tins[t].backlogPackets + 1 < TWO32 && s1.memoryUsage + skbs[k].truesize < TWO32
            && s1.backlog + 1 < TWO32
            && AppendSkb(s1, t, f, skbs[k]) == Append(s, t, f, skbs[..k + 1])
  {
    FitsPrefix(s, t, f, skbs, k);
    FitsPrefix(s, t, f, skbs, k + 1);
    assert skbs[..k + 1] == skbs[..k] + [skbs[k]];
    TotalsAppend(skbs[..k], [skbs[k]]);
    var q := s.flows[f].queue;
    assert q + skbs[..k] + [skbs[k]] == q + skbs[..k + 1];
  }

  /** What each queue holds once `skbs` has arrived in `f`. */
  function Arrived(s: State, f: FlowId, skbs: seq<Skb>, g: FlowId): seq<Skb>
    requires g in s.flows
  {
    if g == f then s.flows[g].queue + skbs else s.flows[g].queue
  }

  /** The flow fq_flow_classify chooses: the hashed one unless another tin owns it. */
  function Classified(s: State, t: TinId, idx: nat): FlowId
    requires Hashed(idx) in s.flows
  {
    if s.flows[Hashed(idx)].tin in {None, Some(t)} then Hashed(idx) else DefaultOf(t)
  }

  lemma ClassifiedAvailable(c: Config, s: State, t: TinId, idx: nat)
    requires FqState.Valid(c, s) && t in s.tins && idx < c.flowsCnt
    ensures Hashed(idx) in s.flows && Classified(s, t, idx) in s.flows
    ensures Available(s.flows[Classified(s, t, idx)], t)
  {
    var f := Classified(s, t, idx);
    assert FlowLinked(s, f);
  }

  lemma AdmitOlds(c: Config, s: State, t: TinId, f: FlowId, skbs: seq<Skb>)
    requires Linked(s) && Fits(s, t, f, skbs)
    ensures SameOlds(s, Admit(c, s, t, f, skbs))
  {
    LinkedIffOwned(s, f);
  }

  lemma ShrinkSchedule(s: State, f: FlowId, q: seq<Skb>)
    requires CanShrink(s, f, q)
    ensures SameSchedule(s, Shrink(s, f, q))
  {
  }

  /** Packets went from the head of one flow only. */
  lemma HeadsOnly(s: State, s': State, f: FlowId, fl: Flow, k: nat)
    requires f in s.flows && s'.flows == s.flows[f := fl] && k <= |s.flows[f].queue| && fl.queue == s.flows[f].queue[k..]
    ensures OnlyDropped(s, s')
  {
    forall g | g in s.flows ensures IsSuffix(s'.flows[g].queue, s.flows[g].queue) {
      assert s.flows[g].queue[0..] == s.flows[g].queue;
    }
  }

  lemma DropStep(c: Config, s: State, f: FlowId, k: nat)
    requires f in s.flows && 1 <= k <= |s.flows[f].queue| && CanShrink(s, f, s.flows[f].queue[k..])
    ensures var s' := Shrink(s, f, s.flows[f].queue[k..]);
            && OnlyDropped(s, s') && SameSchedule(s, s') && Lost(s, s', f, k)
            && s'.overlimit == s.overlimit && s'.overmemory == s.overmemory
  {
    var s' := Shrink(s, f, s.flows[f].queue[k..]);
    HeadsOnly(s, s', f, s'.flows[f], k);
    ShrinkSchedule(s, f, s.flows[f].queue[k..]);
  }

  lemma DroppedThenCounted(s0: State, s: State, s': State)
    requires OnlyDropped(s0, s) && SameSchedule(s0, s) && SameButStats(s, s')
    ensures OnlyDropped(s0, s') && SameSchedule(s0, s')
  {
  }

  /** When anything is queued, there is a flow to drop from. */
  lemma FattestExists(c: Config, s: State)
    requires FqState.Valid(c, s) && (s.backlog > 0 || s.memoryUsage > 0)
    ensures !AllEmpty(s)
  {
    EmptyIffZero(s);
  }

  /** Where the overload loop is. (The quantifier keeps it from being unfolded where it is only
      carried.) */
  ghost predicate Shedding(c: Config, trace: seq<State>, s0: State, s: State) {
    forall z :: IsState(z, s) ==> Turns(c, trace, s0, z) && OnlyDropped(s0, z) && SameSchedule(s0, z)
  }

  lemma SheddingStarts(c: Config, s: State)
    ensures Shedding(c, [s], s, s)
  {
    forall f | f in s.flows ensures IsSuffix(s.flows[f].queue, s.flows[f].queue) {
      assert s.flows[f].queue[0..] == s.flows[f].queue;
    }
  }

  lemma SheddingMore(c: Config, trace: seq<State>, s0: State, s: State, s': State)
    requires Shedding(c, trace, s0, s) && Relief(c, s, s') && OnlyDropped(s, s') && SameSchedule(s, s')
    ensures Shedding(c, trace + [s'], s0, s')
  {
    assert IsState(s, s);
    TurnsMore(c, trace, s0, s, s');
    OnlyDroppedChains(s0, s, s');
    SameScheduleChains(s0, s, s');
  }

  lemma SheddingEnds(c: Config, trace: seq<State>, s0: State, s: State)
    requires Shedding(c, trace, s0, s) && !Over(c, s)
    ensures OnlyDropped(s0, s) && SameSchedule(s0, s) && Relieved(c, s0, s)
  {
    assert IsState(s, s);
    TurnsRelieve(c, trace, s0, s);
  }

  lemma OnlyDroppedChains(s0: State, s: State, s': State)
    requires OnlyDropped(s0, s) && OnlyDropped(s, s')
    ensures OnlyDropped(s0, s')
  {
    forall f | f in s0.flows ensures IsSuffix(s'.flows[f].queue, s0.flows[f].queue) {
      assert IsSuffix(s.flows[f].queue, s0.flows[f].queue) && IsSuffix(s'.flows[f].queue, s.flows[f].queue);
    }
  }

  /** `skbs` has arrived in `f` and nothing else changed for the schedule. */
  ghost predicate Received(s: State, s': State, f: FlowId, skbs: seq<Skb>) {
    && s'.flows.Keys == s.flows.Keys && s'.backlog == s.backlog + |skbs|
    && s'.memoryUsage == s.memoryUsage + Memory(skbs)
    && (forall g :: g in s.flows ==> s'.flows[g].queue == Arrived(s, f, skbs, g))
    && SameOlds(s, s')
  }

  /** The schedule after packets arrived in `f` for `t`: a flow that no tin owned becomes the last
      new flow, with a full quantum, and nothing else moves. */
  ghost predicate Joined(c: Config, s: State, s': State, t: TinId, f: FlowId) {
    && t in s.tins && f in s.flows && s'.flows.Keys == s.flows.Keys && s'.tins.Keys == s.tins.Keys
    && (forall u :: u in s.tins ==> s'.tins[u].oldFlows == s.tins[u].oldFlows)
    && (forall u :: u in s.tins && u != t ==> s'.tins[u].newFlows == s.tins[u].newFlows)
    && (forall g :: g in s.flows && g != f ==> s'.flows[g].tin == s.flows[g].tin && s'.flows[g].deficit == s.flows[g].deficit)
    && s'.flows[f].tin == Some(t)
    && (if s.flows[f].tin.None? then
          s'.tins[t].newFlows == s.tins[t].newFlows + [f] && s'.flows[f].deficit == c.quantum
        else s'.tins[t].newFlows == s.tins[t].newFlows && s'.flows[f].deficit == s.flows[f].deficit)
  }

  lemma AppendJoins(c: Config, s: State, t: TinId, f: FlowId, skbs: seq<Skb>)
    requires Fits(s, t, f, skbs)
    ensures var s1 := Append(s, t, f, skbs);
            && (s.flows[f].tin.Some? ==> Joined(c, s, s1, t, f))
            && (s.flows[f].tin.None? ==> Joined(c, s, Activate(c, s1, t, f), t, f))
  {
  }

  lemma AdmitJoins(c: Config, s: State, t: TinId, f: FlowId, skbs: seq<Skb>)
    requires Linked(s) && Fits(s, t, f, skbs)
    ensures Joined(c, s, Admit(c, s, t, f, skbs), t, f)
  {
    LinkedIffOwned(s, f);
    var s0 := MarkBacklogged(s, f);
    assert s0.flows == s.flows && s0.tins == s.tins;
    AppendJoins(c, s0, t, f, skbs);
  }

  /** Statistics before and drops after do not matter for it. */
  lemma JoinedStays(c: Config, s0: State, s1: State, s2: State, s3: State, t: TinId, f: FlowId)
    requires SameButStats(s0, s1) && Joined(c, s1, s2, t, f) && SameSchedule(s2, s3)
    ensures Joined(c, s0, s3, t, f)
  {
  }

  lemma AppendKeepsLinks(s: State, t: TinId, f: FlowId, skbs: seq<Skb>)
    requires Fits(s, t, f, skbs)
    ensures Fits(MarkBacklogged(s, f), t, f, skbs)
    ensures IsLinked(Append(MarkBacklogged(s, f), t, f, skbs), f) == IsLinked(s, f)
  {
    var s' := Append(MarkBacklogged(s, f), t, f, skbs);
    forall u | u in s.tins ensures InChain(s'.tins[u], f) == InChain(s.tins[u], f) {
    }
    if IsLinked(s, f) {
      var u :| u in s.tins && InChain(s.tins[u], f);
      assert InChain(s'.tins[u], f);
    }
  }

  lemma FollowsReceives(s: State, s': State, f: FlowId, fl: Flow, t: TinId, skbs: seq<Skb>)
    requires Follows(s, s', f, fl, t) && fl.queue == s.flows[f].queue + skbs && SameOlds(s, s')
    ensures Received(s, s', f, skbs)
  {
    TotalsAppend(s.flows[f].queue, skbs);
  }

  lemma AdmitReceives(c: Config, s: State, t: TinId, f: FlowId, skbs: seq<Skb>)
    requires Linked(s) && Fits(s, t, f, skbs)
    ensures Received(s, Admit(c, s, t, f, skbs), f, skbs)
  {
    var s' := Admit(c, s, t, f, skbs);
    AdmitFollows(c, s, t, f, skbs);
    AdmitOlds(c, s, t, f, skbs);
    TotalsAppend(s.flows[f].queue, skbs);
    FollowsReceives(s, s', f, s'.flows[f], t, skbs);
  }

  /** Arrival, then drops from the heads of queues. */
  ghost predicate Enqueued(s0: State, s: State, f: FlowId, skbs: seq<Skb>) {
    && s.flows.Keys == s0.flows.Keys
    && forall g :: g in s0.flows ==> IsSuffix(s.flows[g].queue, Arrived(s0, f, skbs, g))
  }

  /** There is room for the packets. */
  predicate WithinLimits(c: Config, s: State, skbs: seq<Skb>) {
    s.backlog + |skbs| <= c.limit && s.memoryUsage + Memory(skbs) <= c.memoryLimit
  }

  ghost predicate NothingLost(s0: State, s: State, f: FlowId, skbs: seq<Skb>) {
    && s.flows.Keys == s0.flows.Keys && s.backlog == s0.backlog + |skbs| && s.memoryUsage == s0.memoryUsage + Memory(skbs)
    && forall g :: g in s0.flows ==> s.flows[g].queue == Arrived(s0, f, skbs, g)
  }

  lemma ReceivedOnly(s0: State, s1: State, s2: State, f: FlowId, skbs: seq<Skb>)
    requires SameButStats(s0, s1) && Received(s1, s2, f, skbs)
    ensures NothingLost(s0, s2, f, skbs) && SameOlds(s0, s2)
  {
  }

  lemma ReceivedThenDropped(s0: State, s2: State, s3: State, f: FlowId, skbs: seq<Skb>)
    requires NothingLost(s0, s2, f, skbs) && OnlyDropped(s2, s3)
    ensures Enqueued(s0, s3, f, skbs)
  {
    forall g | g in s0.flows ensures IsSuffix(s3.flows[g].queue, Arrived(s0, f, skbs, g)) {
      assert IsSuffix(s3.flows[g].queue, s2.flows[g].queue);
    }
  }

  /** A flow that has lost packets was, with what arrived, at least as fat as any flow is in the end;
      and what was lost is what the overload loop takes from the state in which everything has
      arrived. */
  ghost predicate Shed(c: Config, s: State, s': State, f: FlowId, skbs: seq<Skb>) {
    && s'.flows.Keys == s.flows.Keys
    && (forall g, h :: g in s.flows && h in s.flows && s'.flows[g].queue != Arrived(s, f, skbs, g) ==>
          Bytes(Arrived(s, f, skbs, g)) >= s'.flows[h].backlog)
    && exists s2 :: NothingLost(s, s2, f, skbs) && Relieved(c, s2, s')
  }

  lemma ShedBy(c: Config, s: State, s2: State, s': State, f: FlowId, skbs: seq<Skb>)
    requires NothingLost(s, s2, f, skbs) && Relieved(c, s2, s') && FlowsOk(c, s2)
    ensures Shed(c, s, s', f, skbs)
  {
    RelievedFromFattest(c, s2, s');
    forall g, h | g in s.flows && h in s.flows && s'.flows[g].queue != Arrived(s, f, skbs, g)
      ensures Bytes(Arrived(s, f, skbs, g)) >= s'.flows[h].backlog
    {
      assert FlowOk(c, s2.flows[g]);
    }
  }

  /** What fq_tin_enqueue has done. */
  ghost predicate EnqueueDone(c: Config, s: State, s': State, t: TinId, f: FlowId, skbs: seq<Skb>) {
    && !Over(c, s') && Joined(c, s, s', t, f) && Enqueued(s, s', f, skbs) && Shed(c, s, s', f, skbs)
    && (WithinLimits(c, s, skbs) ==> NothingLost(s, s', f, skbs))
  }

  lemma NoneLost(c: Config, s: State, s2: State, s': State, f: FlowId, skbs: seq<Skb>)
    requires NothingLost(s, s2, f, skbs) && Relieved(c, s2, s')
    ensures WithinLimits(c, s, skbs) ==> NothingLost(s, s', f, skbs)
    ensures !Over(c, s')
  {
    RelievedBarely(c, s2, s');
    RelievedFromFattest(c, s2, s');
  }

  lemma EnqueueIsDone(c: Config, s0: State, s1: State, s2: State, s3: State, t: TinId, f: FlowId, skbs: seq<Skb>)
    requires SameButStats(s0, s1) && Received(s1, s2, f, skbs) && Joined(c, s1, s2, t, f) && FlowsOk(c, s2)
    requires OnlyDropped(s2, s3) && SameSchedule(s2, s3) && Relieved(c, s2, s3)
    ensures EnqueueDone(c, s0, s3, t, f, skbs) && SameOlds(s0, s3)
  {
    ReceivedOnly(s0, s1, s2, f, skbs);
    ReceivedThenDropped(s0, s2, s3, f, skbs);
    JoinedStays(c, s0, s1, s2, s3, t, f);
    OldsThenSchedule(s0, s2, s3);
    ShedBy(c, s0, s2, s3, f, skbs);
    NoneLost(c, s0, s2, s3, f, skbs);
  }

  lemma OldsThenSchedule(s0: State, s: State, s': State)
    requires SameOlds(s0, s) && SameSchedule(s, s')
    ensures SameOlds(s0, s')
  {
  }

  // ----- filtering -----

  /** The packets a filter keeps. */
  function Kept(q: seq<Skb>, drop: Skb -> bool): seq<Skb> {
    if q == [] then [] else (if drop(q[0]) then [] else [q[0]]) + Kept(q[1..], drop)
  }

  function Cut(q: seq<Skb>, k: nat): seq<Skb>
    requires k < |q|
  {
    q[..k] + q[k + 1..]
  }

  lemma KeptStep(q: seq<Skb>, k: nat, drop: Skb -> bool)
    requires k < |q|
    ensures q[..k] + Kept(q[k..], drop) ==
            if drop(q[k]) then Cut(q, k)[..k] + Kept(Cut(q, k)[k..], drop) else q[..k + 1] + Kept(q[k + 1..], drop)
  {
    assert q[k..][1..] == q[k + 1..];
    if drop(q[k]) {
      assert Cut(q, k)[..k] == q[..k] && Cut(q, k)[k..] == q[k + 1..];
    } else {
      assert q[..k + 1] == q[..k] + [q[k]];
    }
  }

  lemma CutIsSubqueue(q: seq<Skb>, k: nat)
    requires k < |q|
    ensures Subqueue(Cut(q, k), q)
    ensures Bytes(q) - Bytes(Cut(q, k)) == q[k].len && Memory(q) - Memory(Cut(q, k)) == q[k].truesize
  {
    assert q == q[..k] + q[k..];
    TotalsAppend(q[..k], q[k..]);
    TotalsAppend(q[..k], q[k + 1..]);
    assert q[k..][1..] == q[k + 1..];
  }

  /** Unlinking one packet and adjusting the counters for it. */
  lemma RemoveOne(c: Config, s: State, f: FlowId, k: nat)
    requires FqState.Valid(c, s) && f in s.flows && k < |s.flows[f].queue|
    ensures var q := s.flows[f].queue;
            && CanShrink(s, f, Cut(q, k)) && FqState.Valid(c, Shrink(s, f, Cut(q, k)))
            && CanRemove(SetQueue(s, f, Cut(q, k)), f, 1, q[k].len, q[k].truesize)
            && AdjustRemoval(SetQueue(s, f, Cut(q, k)), f, 1, q[k].len, q[k].truesize) == Shrink(s, f, Cut(q, k))
  {
    var q := s.flows[f].queue;
    BackloggedFlow(c, s, f);
    CutIsSubqueue(q, k);
    ShrinkValid(c, s, f, Cut(q, k));
    ShrinkIs(s, f, Cut(q, k), 1, q[k].len, q[k].truesize);
  }

  /** Same schedule, and all queues but one unchanged. */
  ghost predicate OnlyQueue(s: State, s': State, f: FlowId) {
    SameSchedule(s, s') && forall g :: g in s.flows && g != f ==> s'.flows[g].queue == s.flows[g].queue
  }

  lemma ShrinkOnlyQueue(s: State, f: FlowId, q: seq<Skb>)
    requires CanShrink(s, f, q)
    ensures OnlyQueue(s, Shrink(s, f, q), f) && Shrink(s, f, q).flows[f].queue == q
  {
  }

  lemma OnlyQueueChains(s0: State, s: State, s': State, f: FlowId)
    requires OnlyQueue(s0, s, f) && OnlyQueue(s, s', f)
    ensures OnlyQueue(s0, s', f)
  {
  }

  /** fq_flow_filter has dealt with the packets before `k`. */
  ghost predicate Filtering(s0: State, s: State, f: FlowId, k: nat, drop: Skb -> bool) {
    && f in s0.flows && OnlyQueue(s0, s, f) && k <= |s.flows[f].queue|
    && s.flows[f].queue[..k] + Kept(s.flows[f].queue[k..], drop) == Kept(s0.flows[f].queue, drop)
  }

  lemma FilteringStarts(s: State, f: FlowId, drop: Skb -> bool)
    requires f in s.flows
    ensures Filtering(s, s, f, 0, drop)
  {
    var q := s.flows[f].queue;
    assert q[..0] + Kept(q[0..], drop) == Kept(q, drop) by {
      assert q[0..] == q;
    }
  }

  lemma FilteringCuts(s0: State, s: State, s': State, f: FlowId, k: nat, drop: Skb -> bool)
    requires Filtering(s0, s, f, k, drop) && k < |s.flows[f].queue| && drop(s.flows[f].queue[k])
    requires OnlyQueue(s, s', f) && s'.flows[f].queue == Cut(s.flows[f].queue, k)
    ensures Filtering(s0, s', f, k, drop)
  {
    KeptStep(s.flows[f].queue, k, drop);
    OnlyQueueChains(s0, s, s', f);
  }

  lemma FilteringKeeps(s0: State, s: State, f: FlowId, k: nat, drop: Skb -> bool)
    requires Filtering(s0, s, f, k, drop) && k < |s.flows[f].queue| && !drop(s.flows[f].queue[k])
    ensures Filtering(s0, s, f, k + 1, drop)
  {
    KeptStep(s.flows[f].queue, k, drop);
  }

  lemma FilteringEnds(s0: State, s: State, f: FlowId, k: nat, drop: Skb -> bool)
    requires Filtering(s0, s, f, k, drop) && k == |s.flows[f].queue|
    ensures OnlyQueue(s0, s, f) && s.flows[f].queue == Kept(s0.flows[f].queue, drop)
  {
    assert s.flows[f].queue[..k] == s.flows[f].queue && s.flows[f].queue[k..] == [];
  }

  lemma ScheduleOlds(s: State, s': State)
    requires SameSchedule(s, s')
    ensures SameOlds(s, s')
  {
  }

  /** The flows in `l` have been filtered, the others not touched. */
  ghost predicate Filtered(s0: State, s: State, l: seq<FlowId>, drop: Skb -> bool) {
    && SameSchedule(s0, s)
    && forall g :: g in s0.flows ==>
         s.flows[g].queue == if g in l then Kept(s0.flows[g].queue, drop) else s0.flows[g].queue
  }

  lemma SameScheduleChains(s0: State, s: State, s': State)
    requires SameSchedule(s0, s) && SameSchedule(s, s')
    ensures SameSchedule(s0, s')
  {
  }

  lemma FilteredAlso(s0: State, s: State, s': State, l: seq<FlowId>, l': seq<FlowId>, f: FlowId, drop: Skb -> bool)
    requires f in s0.flows && f !in l && Filtered(s0, s, l, drop) && OnlyQueue(s, s', f)
    requires s'.flows[f].queue == Kept(s.flows[f].queue, drop) && forall g :: g in l' <==> g in l || g == f
    ensures Filtered(s0, s', l', drop)
  {
    SameScheduleChains(s0, s, s');
    forall g | g in s0.flows
      ensures s'.flows[g].queue == if g in l' then Kept(s0.flows[g].queue, drop) else s0.flows[g].queue
    {
      assert g in s.flows;
    }
  }

  lemma FilteredOneMore(s0: State, s: State, s': State, l: seq<FlowId>, i: nat, drop: Skb -> bool)
    requires i < |l| && NoDup(l) && l[i] in s0.flows && Filtered(s0, s, l[..i], drop) && OnlyQueue(s, s', l[i])
    requires s'.flows[l[i]].queue == Kept(s.flows[l[i]].queue, drop)
    ensures Filtered(s0, s', l[..i + 1], drop)
  {
    assert l[..i + 1] == l[..i] + [l[i]];
    FilteredAlso(s0, s, s', l[..i], l[..i + 1], l[i], drop);
  }

  lemma FilteredTwice(s0: State, s: State, s': State, l: seq<FlowId>, m: seq<FlowId>, drop: Skb -> bool)
    requires Filtered(s0, s, l, drop) && Filtered(s, s', m, drop) && forall f :: f in l ==> f !in m
    ensures Filtered(s0, s', l + m, drop)
  {
  }

  /** The flows of `t` have been filtered, the others not touched. */
  ghost predicate TinFiltered(s0: State, s: State, t: TinId, drop: Skb -> bool) {
    && SameSchedule(s0, s)
    && (forall g :: g in s0.flows && s0.flows[g].tin == Some(t) ==> s.flows[g].queue == Kept(s0.flows[g].queue, drop))
    && (forall g :: g in s0.flows && s0.flows[g].tin != Some(t) ==> s.flows[g].queue == s0.flows[g].queue)
  }

  lemma FilteredTin(s0: State, s: State, t: TinId, drop: Skb -> bool)
    requires Linked(s0) && t in s0.tins && Filtered(s0, s, s0.tins[t].newFlows + s0.tins[t].oldFlows, drop)
    ensures TinFiltered(s0, s, t, drop)
  {
    var l := s0.tins[t].newFlows + s0.tins[t].oldFlows;
    assert TinLinked(s0, t);
    forall g | g in s0.flows ensures g in l <==> s0.flows[g].tin == Some(t) {
      assert FlowLinked(s0, g);
      assert g in l ==> InChain(s0.tins[t], g);
    }
  }

  // ----- resetting -----

  /** Everything that does not belong to `t` is as before. */
  ghost predicate OnlyTin(s0: State, s: State, t: TinId) {
    && s.flows.Keys == s0.flows.Keys && s.tins.Keys == s0.tins.Keys
    && (forall u :: u in s0.tins && u != t ==> s.tins[u] == s0.tins[u])
    && (forall g :: g in s0.flows && s0.flows[g].tin != Some(t) ==> s.flows[g] == s0.flows[g])
    && (forall g :: g in s0.flows && s0.flows[g].tin == Some(t) ==> s.flows[g].tin in {None, Some(t)})
  }

  lemma OnlyTinChains(s0: State, s: State, s': State, t: TinId)
    requires OnlyTin(s0, s, t) && OnlyTin(s, s', t)
    ensures OnlyTin(s0, s', t)
  {
  }

  /** Every flow but `f` is as before. */
  ghost predicate OnlyFlow(s0: State, s: State, f: FlowId) {
    s.flows.Keys == s0.flows.Keys && s.tins.Keys == s0.tins.Keys && forall g :: g in s0.flows && g != f ==> s.flows[g] == s0.flows[g]
  }

  lemma ShrinkOnlyFlow(s: State, f: FlowId, q: seq<Skb>)
    requires CanShrink(s, f, q)
    ensures OnlyFlow(s, Shrink(s, f, q), f)
  {
  }

  lemma ShrinkOnlyTin(s: State, t: TinId, f: FlowId, q: seq<Skb>)
    requires CanShrink(s, f, q) && s.flows[f].tin == Some(t)
    ensures OnlyTin(s, Shrink(s, f, q), t)
  {
  }

  lemma UnlinkOnlyTin(s: State, t: TinId, f: FlowId)
    requires t in s.tins && f in s.flows && s.flows[f].tin == Some(t)
    ensures OnlyTin(s, Unlink(s, t, f), t)
  {
  }

  /** When a tin has lost its last flow it is not on tin_backlog, so that removing it there
      (fq_impl.h:301-303) changes nothing. */
  lemma LastFlowGone(c: Config, s: State, t: TinId)
    requires FqState.Valid(c, s) && t in s.tins && s.tins[t].newFlows == [] && s.tins[t].oldFlows == []
    ensures t !in s.tinBacklog && Without(s.tinBacklog, t) == s.tinBacklog
  {
    assert DefaultOf(t) in s.flows;
    assert FlowLinked(s, DefaultOf(t));
  }

  lemma OnlyTinPaced(c: Config, s0: State, l: Ledger, s: State, t: TinId)
    requires Linked(s0) && OnlyTin(s0, s, t) && t in s.tins && s.tins[t].oldFlows == []
    ensures Paced(c, Moment(s0, l), Moment(s, l))
  {
    forall u, a, b | Contend(s0, u, a, b) && InOld(s, u, a) && InOld(s, u, b)
      ensures KeepsPace(c, s0, l, s, l, u, a, b)
    {
      assert TinLinked(s0, u) && InChain(s0.tins[u], a) && InChain(s0.tins[u], b);
      UntouchedKeepsPace(c, s0, l, s, u, a, b);
    }
  }

  /** The first `n` hashed flows have been reset and the others are untouched. */
  ghost predicate Drained(s0: State, s: State, n: nat) {
    && s.flows.Keys == s0.flows.Keys && s.tins.Keys == s0.tins.Keys
    && (forall g :: g in s0.flows && g.Hashed? && g.index < n ==> s.flows[g].tin.None? && s.flows[g].queue == [])
    && (forall g :: g in s0.flows && !(g.Hashed? && g.index < n) ==> s.flows[g] == s0.flows[g])
  }

  lemma DrainedOneMore(s0: State, s: State, s': State, n: nat)
    requires Drained(s0, s, n) && OnlyFlow(s, s', Hashed(n)) && Hashed(n) in s'.flows
    requires s'.flows[Hashed(n)].tin.None? && s'.flows[Hashed(n)].queue == []
    ensures Drained(s0, s', n + 1)
  {
  }

  /** Nothing is queued after fq_reset if nothing was queued in a default flow. */
  lemma ResetEmpties(c: Config, s0: State, s: State)
    requires FqState.Valid(c, s0) && FqState.Valid(c, s) && Drained(s0, s, c.flowsCnt)
    ensures s.backlog == 0 <==> s0.tinBacklog == []
    ensures s.memoryUsage == 0 <==> s0.tinBacklog == []
  {
    EmptyIffZero(s);
    forall g | g in s.flows ensures s.flows[g].queue != [] ==> g.DefaultOf? && g.t in s0.tinBacklog {
    }
    if s0.tinBacklog != [] {
      assert s0.tinBacklog[0] in s0.tinBacklog;
    }
  }

  // ----- runs of operations -----

  datatype Operation =
    | CreateTin(t: TinId)
    | Enqueue(t: TinId, idx: nat, skbs: seq<Skb>)
    | Dequeue(t: TinId)
    | FilterTin(t: TinId, drop: Skb -> bool)
    | ResetTin(t: TinId)

  /** What an operation needs of the state: known tins, a burst of packets that are not too
      long, and no overflow of the memory counter by it. */
  predicate Enabled(c: Config, s: State, op: Operation) {
    match op
    case CreateTin(t) => t !in s.tins
    case Enqueue(t, idx, skbs) =>
      t in s.tins && idx < c.flowsCnt && skbs != [] && s.memoryUsage + Memory(skbs) < TWO32 &&
      forall k :: 0 <= k < |skbs| ==> skbs[k].len <= c.maxLen
    case Dequeue(t) => t in s.tins
    case FilterTin(t, _) => t in s.tins
    case ResetTin(t) => t in s.tins
  }

  lemma RunGrows(c: Config, run: seq<Moment>, m: Moment)
    requires IsRun(c, run) && FqState.Valid(c, m.s) && Paced(c, run[|run| - 1], m)
    ensures IsRun(c, run + [m])
  {
    var run' := run + [m];
    assert run'[..|run|] == run && run'[|run'| - 2] == run[|run| - 1] && run'[|run'| - 1] == m;
    forall i | 0 <= i < |run'| ensures FqState.Valid(c, run'[i].s) {
      assert i < |run| ==> run'[i] == run[i];
    }
  }

  /** What an operation that is enabled does. */
  ghost predicate Stepped(c: Config, s: State, op: Operation, s': State, out: Option<Delivery>) {
    match op
    case CreateTin(t) => out.None? && s' == WithTin(s, t)
    case Enqueue(t, idx, skbs) =>
      out.None? && Hashed(idx) in s.flows && EnqueueDone(c, s, s', t, Classified(s, t, idx), skbs)
    case Dequeue(t) =>
      && t in s.tins && (out.None? <==> s.tins[t].backlogPackets == 0)
      && (if out.None? then SameLoad(s, s') else Delivered(s, s', t, out.value.from, out.value.skb))
      && Dequeued(c, s, t, s', out)
    case FilterTin(t, drop) => out.None? && TinFiltered(s, s', t, drop)
    case ResetTin(t) =>
      out.None? && OnlyTin(s, s', t) && t in s'.tins && s'.tins[t].newFlows == [] && s'.tins[t].oldFlows == []
  }

  /** The ledger has recorded exactly this delivery. */
  ghost predicate Booked(l: Ledger, l': Ledger, out: Option<Delivery>) {
    if out.None? then NothingSent(l, l') else SentOnly(l, l', out.value.from, out.value.skb.len)
  }

  /** One operation of a run: performed if it is enabled, skipped otherwise. */
  ghost predicate Turn(c: Config, m: Moment, op: Operation, m': Moment, out: Option<Delivery>) {
    if Enabled(c, m.s, op) then Stepped(c, m.s, op, m'.s, out) && Booked(m.l, m'.l, out)
    else m' == m && out.None?
  }

  ghost predicate History(c: Config, ops: seq<Operation>, run: seq<Moment>, outs: seq<Option<Delivery>>) {
    && |run| == |ops| + 1 && |outs| == |ops|
    && forall i :: 0 <= i < |ops| ==> Turn(c, run[i], ops[i], run[i + 1], outs[i])
  }

  /** The bytes delivered from `f`. */
  function BytesFrom(outs: seq<Option<Delivery>>, f: FlowId): nat {
    if outs == [] then 0
    else
      var out := outs[|outs| - 1];
      BytesFrom(outs[..|outs| - 1], f) + if out.Some? && out.value.from == f then out.value.skb.len else 0
  }

  /** The ledgers differ by the bytes delivered. */
  ghost predicate Tallies(l: Ledger, l': Ledger, outs: seq<Option<Delivery>>) {
    forall f :: SentBetween(l, l', f) == BytesFrom(outs, f)
  }

  lemma TalliesMore(l: Ledger, l1: Ledger, l2: Ledger, outs: seq<Option<Delivery>>, out: Option<Delivery>)
    requires Tallies(l, l1, outs) && Booked(l1, l2, out)
    ensures Tallies(l, l2, outs + [out])
  {
    assert (outs + [out])[..|outs|] == outs;
  }

  lemma HistoryGrows(c: Config, ops: seq<Operation>, i: nat, run: seq<Moment>, outs: seq<Option<Delivery>>, m: Moment,
                     out: Option<Delivery>)
    requires i < |ops| && History(c, ops[..i], run, outs) && Turn(c, run[i], ops[i], m, out)
    ensures History(c, ops[..i + 1], run + [m], outs + [out])
  {
    var ops', run', outs' := ops[..i + 1], run + [m], outs + [out];
    forall j | 0 <= j < |ops'| ensures Turn(c, run'[j], ops'[j], run'[j + 1], outs'[j]) {
      if j < i {
        assert ops'[j] == ops[..i][j] && Turn(c, run[j], ops[..i][j], run[j + 1], outs[j]);
      }
    }
  }

  /** Everything known of the operations `ops` performed so far. */
  ghost predicate Recorded(c: Config, ops: seq<Operation>, run: seq<Moment>, outs: seq<Option<Delivery>>) {
    IsRun(c, run) && History(c, ops, run, outs) && Tallies(run[0].l, run[|run| - 1].l, outs)
  }

  lemma RecordedGrows(c: Config, ops: seq<Operation>, i: nat, run: seq<Moment>, outs: seq<Option<Delivery>>, m: Moment,
                      out: Option<Delivery>)
    requires i < |ops| && Recorded(c, ops[..i], run, outs) && FqState.Valid(c, m.s)
    requires Turn(c, run[i], ops[i], m, out) && Paced(c, run[i], m) && Booked(run[i].l, m.l, out)
    ensures Recorded(c, ops[..i + 1], run + [m], outs + [out])
  {
    RunGrows(c, run, m);
    HistoryGrows(c, ops, i, run, outs, m, out);
    TalliesMore(run[0].l, run[i].l, m.l, outs, out);
  }

  /** Two flows of a tin were served within the bound of each other. */
  ghost predicate Even(c: Config, outs: seq<Option<Delivery>>, a: FlowId, b: FlowId) {
    -(3 * c.quantum + 2 * c.maxLen) < BytesFrom(outs, a) - BytesFrom(outs, b) < 3 * c.quantum + 2 * c.maxLen
  }

  /** Fairness in terms of the packets handed out: over any stretch of the run, from before
      operation `i` to before operation `j`, for every two flows that stay backlogged among the old
      flows of a tin during it. */
  ghost predicate Fair(c: Config, run: seq<Moment>, outs: seq<Option<Delivery>>) {
    |run| == |outs| + 1 &&
    forall i, j, t, a, b :: ContendDuring(run, i, j, t, a, b) ==> Even(c, outs[i..j], a, b)
  }

  ghost predicate AllBooked(run: seq<Moment>, outs: seq<Option<Delivery>>) {
    |run| == |outs| + 1 && forall i :: 0 <= i < |outs| ==> Booked(run[i].l, run[i + 1].l, outs[i])
  }

  lemma HistoryBooked(c: Config, ops: seq<Operation>, run: seq<Moment>, outs: seq<Option<Delivery>>)
    requires History(c, ops, run, outs)
    ensures AllBooked(run, outs)
  {
    forall i | 0 <= i < |outs| ensures Booked(run[i].l, run[i + 1].l, outs[i]) {
      assert Turn(c, run[i], ops[i], run[i + 1], outs[i]);
    }
  }

  /** The ledgers at both ends of a stretch differ by the bytes delivered in it. */
  lemma {:induction false} WindowTallies(run: seq<Moment>, outs: seq<Option<Delivery>>, i: nat, j: nat)
    requires AllBooked(run, outs) && i <= j <= |outs|
    ensures Tallies(run[i].l, run[j].l, outs[i..j])
    decreases j
  {
    if i < j {
      WindowTallies(run, outs, i, j - 1);
      TalliesMore(run[i].l, run[j - 1].l, run[j].l, outs[i..j - 1], outs[j - 1]);
      assert outs[i..j] == outs[i..j - 1] + [outs[j - 1]];
    }
  }

  lemma TalliesEven(c: Config, l: Ledger, l': Ledger, outs: seq<Option<Delivery>>, a: FlowId, b: FlowId)
    requires Tallies(l, l', outs)
    requires -(3 * c.quantum + 2 * c.maxLen) as int < SentBetween(l, l', a) - SentBetween(l, l', b) < 3 * c.quantum + 2 * c.maxLen
    ensures Even(c, outs, a, b)
  {
  }

  lemma FairRun(c: Config, ops: seq<Operation>, run: seq<Moment>, outs: seq<Option<Delivery>>)
    requires Recorded(c, ops, run, outs)
    ensures Fair(c, run, outs)
  {
    HistoryBooked(c, ops, run, outs);
    forall i, j, t, a, b | ContendDuring(run, i, j, t, a, b) ensures Even(c, outs[i..j], a, b) {
      WindowTallies(run, outs, i, j);
      Fairness(c, run, i, j, t, a, b);
      TalliesEven(c, run[i].l, run[j].l, outs[i..j], a, b);
    }
  }

  lemma RecordedStart(c: Config, m: Moment)
    requires FqState.Valid(c, m.s)
    ensures Recorded(c, [], [m], [])
  {
  }

  // ----- the scheduler -----

  class Scheduler {
    const c: Config
    var st: State
    ghost var ledger: Ledger

    ghost predicate Valid()
      reads this
    {
      ValidConfig(c) && FqState.Valid(c, st)
    }

    constructor (c: Config)
      requires ValidConfig(c)
      ensures Valid() && this.c == c && st == InitialState(c) && ledger == EmptyLedger
    {
      this.c := c;
      st := InitialState(c);
      ledger := EmptyLedger;
      InitialValid(c);
    }

    /** fq_tin_init. */
    method AddTin(t: TinId)
      requires Valid() && t !in st.tins
      modifies this`st
      ensures Valid() && st == WithTin(old(st), t)
      ensures Paced(c, Moment(old(st), ledger), Moment(st, ledger))
    {
      WithTinValid(c, st, t);
      st := WithTin(st, t);
      SameOldsPaced(c, old(st), ledger, st);
    }

    /** fq_flow_dequeue. */
    method FlowDequeue(f: FlowId) returns (skb: Option<Skb>)
      requires Valid() && f in st.flows
      modifies this`st
      ensures Valid()
      ensures var q := old(st).flows[f].queue;
              if q == [] then skb.None? && st == old(st)
              else skb == Some(q[0]) && CanShrink(old(st), f, q[1..]) && st == Shrink(old(st), f, q[1..])
    {
      var q := st.flows[f].queue;
      if q == [] {
        return None;
      }
      RemoveHead(c, st, f, 1);
      assert q[..1] == [q[0]] && [q[0]][1..] == [];
      skb := Some(q[0]);
      st := AdjustRemoval(SetQueue(st, f, q[1..]), f, 1, q[0].len, q[0].truesize);
    }

    /** fq_flow_drop: half of the queue, but no more than 32 packets and at least one. */
    method FlowDrop(f: FlowId) returns (packets: nat)
      requires Valid() && f in st.flows && st.flows[f].queue != []
      modifies this`st
      ensures Valid()
      ensures var q := old(st).flows[f].queue;
              && packets == DropCount(|q|) && 1 <= packets <= |q|
              && CanShrink(old(st), f, q[packets..]) && st == Shrink(old(st), f, q[packets..])
    {
      var bytes, truesize, rest;
      packets, bytes, truesize, rest := TakePending(st.flows[f].queue);
      RemoveHead(c, st, f, packets);
      st := AdjustRemoval(SetQueue(st, f, rest), f, packets, bytes, truesize);
    }

    /** fq_find_fattest_flow. */
    method FindFattest() returns (flow: Option<FlowId>)
      requires Valid()
      ensures flow.None? <==> AllEmpty(st)
      ensures flow.Some? ==> flow.value in st.flows && st.flows[flow.value].backlog > 0 &&
                             forall g :: g in st.flows ==> st.flows[g].backlog <= st.flows[flow.value].backlog
    {
      flow := None;
      var len := 0;
      for i := 0 to c.flowsCnt
        invariant flow.None? ==> len == 0
        invariant flow.Some? ==> flow.value in st.flows && st.flows[flow.value].backlog == len > 0
        invariant forall j :: 0 <= j < i ==> st.flows[Hashed(j)].backlog <= len
      {
        assert FlowOk(c, st.flows[Hashed(i)]);
        if i in st.bitmap && st.flows[Hashed(i)].backlog > len {
          flow, len := Some(Hashed(i)), st.flows[Hashed(i)].backlog;
        }
      }
      var k := 0;
      while k < |st.tinBacklog|
        invariant k <= |st.tinBacklog|
        invariant flow.None? ==> len == 0
        invariant flow.Some? ==> flow.value in st.flows && st.flows[flow.value].backlog == len > 0
        invariant forall j :: 0 <= j < c.flowsCnt ==> st.flows[Hashed(j)].backlog <= len
        invariant forall j :: 0 <= j < k ==> DefaultOf(st.tinBacklog[j]) in st.flows
        invariant forall j :: 0 <= j < k ==> st.flows[DefaultOf(st.tinBacklog[j])].backlog <= len
      {
        var f := DefaultOf(st.tinBacklog[k]);
        assert st.tinBacklog[k] in st.tinBacklog;
        if st.flows[f].backlog > len {
          flow, len := Some(f), st.flows[f].backlog;
        }
        k := k + 1;
      }
      forall g | g in st.flows ensures st.flows[g].backlog <= len && (st.flows[g].backlog == 0 <==> st.flows[g].queue == []) {
        assert FlowOk(c, st.flows[g]);
        TotalsBound(st.flows[g].queue);
        if g.DefaultOf? && st.flows[g].queue != [] {
          assert g.t in st.tinBacklog;
        }
      }
    }

    /** fq_tin_dequeue, with fq_flow_dequeue as its callback. */
    method TinDequeue(t: TinId) returns (skb: Option<Skb>, from: FlowId)
      requires Valid() && t in st.tins
      modifies this`st, this`ledger
      ensures Valid()
      ensures skb.None? <==> old(st).tins[t].backlogPackets == 0
      ensures skb.None? ==> SameLoad(old(st), st) && st.tins[t].newFlows == [] && st.tins[t].oldFlows == []
      ensures skb.Some? ==> Delivered(old(st), st, t, from, skb.value)
      ensures if skb.Some? then SentOnly(old(ledger), ledger, from, skb.value.len) else NothingSent(old(ledger), ledger)
      ensures Paced(c, Moment(old(st), old(ledger)), Moment(st, ledger))
      ensures Dequeued(c, old(st), t, st, if skb.Some? then Some(Delivery(from, skb.value)) else None)
    {
      from := DefaultOf(t);
      ghost var s0, l0 := st, ledger;
      LoopStarts(c, st, ledger, t);
      while true
        invariant InLoop(c, s0, l0, st, ledger, t)
        decreases Work(c, st, t)
      {
        var tin := st.tins[t];
        if tin.newFlows == [] && tin.oldFlows == [] {
          LoopEnds(c, s0, l0, st, ledger, t);
          return None, from;
        }
        var f := if tin.newFlows != [] then tin.newFlows[0] else tin.oldFlows[0];
        HeadOwned(st, t, f);
        if st.flows[f].deficit <= 0 {
          LoopReplenishes(c, s0, l0, st, ledger, t, f);
          st, ledger := Replenish(c, st, t, f), Grant(ledger, f, c.quantum);
        } else if st.flows[f].queue == [] {
          LoopRetires(c, s0, l0, st, ledger, t, f);
          st := Retired(st, t, f);
        } else {
          LoopServes(c, s0, l0, st, ledger, t, f);
          skb := Serve(t, f);
          from := f;
          return;
        }
      }
    }

    method Serve(t: TinId, f: FlowId) returns (skb: Option<Skb>)
      requires Valid() && t in st.tins && f in st.flows && st.flows[f].queue != [] && st.flows[f].deficit > 0
      modifies this`st, this`ledger
      ensures skb == Some(old(st).flows[f].queue[0])
      ensures CanShrink(old(st), f, old(st).flows[f].queue[1..]) && st == Served(old(st), t, f)
      ensures ledger == Send(old(ledger), f, old(st).flows[f].queue[0].len)
    {
      ledger := Send(ledger, f, st.flows[f].queue[0].len);
      skb := FlowDequeue(f);
      st := Charged(st, t, f, skb.value.len);
    }

    /** fq_flow_classify. */
    method Classify(t: TinId, idx: nat) returns (f: FlowId)
      requires Valid() && t in st.tins && idx < c.flowsCnt
      modifies this`st
      ensures Valid() && SameButStats(old(st), st)
      ensures Hashed(idx) in old(st).flows && f == Classified(old(st), t, idx) && f in st.flows
      ensures Available(st.flows[f], t)
      ensures st.collisions == (if f.DefaultOf? then Bump(old(st).collisions, 1) else old(st).collisions)
      ensures st.tins == old(st).tins[t := old(st).tins[t].(
                collisions := if f.DefaultOf? then Bump(old(st).tins[t].collisions, 1) else old(st).tins[t].collisions,
                flows := if old(st).flows[f].tin.None? then Bump(old(st).tins[t].flows, 1) else old(st).tins[t].flows)]
    {
      ClassifiedAvailable(c, st, t, idx);
      f := Hashed(idx);
      var tin := st.tins[t];
      var collisions := st.collisions;
      if st.flows[f].tin.Some? && st.flows[f].tin != Some(t) {
        f := DefaultOf(t);
        tin := tin.(collisions := Bump(tin.collisions, 1));
        collisions := Bump(collisions, 1);
      }
      if st.flows[f].tin.None? {
        tin := tin.(flows := Bump(tin.flows, 1));
      }
      ghost var s0 := st;
      st := st.(tins := st.tins[t := tin], collisions := collisions);
      StatsKeepValid(c, s0, st);
    }

    /** The queueing loop of fq_tin_enqueue. */
    method AppendAll(t: TinId, f: FlowId, skbs: seq<Skb>)
      requires Fits(st, t, f, skbs)
      modifies this`st
      ensures Fits(old(st), t, f, skbs) && st == Append(old(st), t, f, skbs)
    {
      ghost var s0 := st;
      st := st.(flows := st.flows[f := st.flows[f].(tin := Some(t))]);
      FitsPrefix(s0, t, f, skbs, 0);
      assert s0.flows[f].queue + skbs[..0] == s0.flows[f].queue;
      assert s0.tins[t := s0.tins[t]] == s0.tins;
      for k := 0 to |skbs|
        invariant Fits(s0, t, f, skbs[..k]) && st == Append(s0, t, f, skbs[..k])
      {
        AppendOneMore(s0, t, f, skbs, k);
        st := AppendSkb(st, t, f, skbs[k]);
      }
      assert skbs[..|skbs|] == skbs;
    }

    /** The overload loop of fq_tin_enqueue (fq_impl.h:234-249). */
    method DropOverload()
      requires Valid()
      modifies this`st
      ensures Valid() && Relieved(c, old(st), st)
      ensures OnlyDropped(old(st), st) && SameSchedule(old(st), st)
    {
      ghost var s0, trace := st, [st];
      SheddingStarts(c, st);
      var oom := st.memoryUsage > c.memoryLimit;
      while st.backlog > c.limit || oom
        invariant Valid() && oom == (st.memoryUsage > c.memoryLimit) && Shedding(c, trace, s0, st)
        decreases st.backlog
      {
        ghost var s1 := st;
        DropFromFattest(oom);
        SheddingMore(c, trace, s0, s1, st);
        trace := trace + [st];
        if oom {
          oom := st.memoryUsage > c.memoryLimit;
        }
      }
      SheddingEnds(c, trace, s0, st);
    }

    /** One turn of the overload loop. */
    method DropFromFattest(oom: bool)
      requires Valid() && Over(c, st) && oom == (st.memoryUsage > c.memoryLimit)
      modifies this`st
      ensures Valid() && Relief(c, old(st), st)
      ensures st.backlog < old(st).backlog && st.memoryUsage <= old(st).memoryUsage
      ensures OnlyDropped(old(st), st) && SameSchedule(old(st), st)
    {
      FattestExists(c, st);
      var flow := FindFattest();
      assert flow.Some?;  // the return at fq_impl.h:237-238 is not reached
      var f := flow.value;
      BackloggedFlow(c, st, f);
      var packets := DropFrom(f);
      assert packets > 0;  // nor is the one at fq_impl.h:240-241
      ghost var s1 := st;
      CountOverlimit(f, oom);
      LostThenCounted(c, old(st), s1, st, f, packets);
      DroppedThenCounted(old(st), s1, st);
    }

    method DropFrom(f: FlowId) returns (packets: nat)
      requires Valid() && f in st.flows && st.flows[f].queue != []
      modifies this`st
      ensures Valid() && packets == DropCount(|old(st).flows[f].queue|) && packets > 0
      ensures Lost(old(st), st, f, packets) && st.overlimit == old(st).overlimit && st.overmemory == old(st).overmemory
      ensures OnlyDropped(old(st), st) && SameSchedule(old(st), st)
    {
      packets := FlowDrop(f);
      DropStep(c, old(st), f, packets);
    }

    /** The statistics of one overload drop. */
    method CountOverlimit(f: FlowId, oom: bool)
      requires Valid() && f in st.flows && st.flows[f].tin.Some?
      modifies this`st
      ensures Valid() && SameButStats(old(st), st)
      ensures st.flows[f].tin.value in old(st).tins
      ensures var t := st.flows[f].tin.value;
              st == old(st).(tins := old(st).tins[t := old(st).tins[t].(overlimit := Bump(old(st).tins[t].overlimit, 1))],
                             overlimit := Bump(old(st).overlimit, 1),
                             overmemory := if oom then Bump(old(st).overmemory, 1) else old(st).overmemory)
    {
      ghost var s0 := st;
      assert FlowLinked(st, f);
      var t := st.flows[f].tin.value;
      st := st.(tins := st.tins[t := st.tins[t].(overlimit := Bump(st.tins[t].overlimit, 1))],
                overlimit := Bump(st.overlimit, 1),
                overmemory := if oom then Bump(st.overmemory, 1) else st.overmemory);
      StatsKeepValid(c, s0, st);
    }

    /** fq_tin_enqueue. */
    method TinEnqueue(t: TinId, idx: nat, skbs: seq<Skb>) returns (ghost into: FlowId)
      requires Valid() && t in st.tins && idx < c.flowsCnt && skbs != []
      requires forall k :: 0 <= k < |skbs| ==> skbs[k].len <= c.maxLen
      requires st.memoryUsage + Memory(skbs) < TWO32
      modifies this`st
      ensures Valid() && Hashed(idx) in old(st).flows && into == Classified(old(st), t, idx)
      ensures EnqueueDone(c, old(st), st, t, into, skbs)
      ensures Paced(c, Moment(old(st), ledger), Moment(st, ledger))
    {
      var f := Classify(t, idx);
      into := f;
      ghost var s1 := st;
      Receive(t, f, skbs);
      ghost var s2 := st;
      DropOverload();
      EnqueueIsDone(c, old(st), s1, s2, st, t, f, skbs);
      SameOldsPaced(c, old(st), ledger, st);
    }

    /** fq_tin_enqueue from the choice of the flow to the overload test. */
    method Receive(t: TinId, f: FlowId, skbs: seq<Skb>)
      requires Valid() && t in st.tins && f in st.flows && Available(st.flows[f], t) && skbs != []
      requires f.DefaultOf? ==> f.t == t
      requires forall k :: 0 <= k < |skbs| ==> skbs[k].len <= c.maxLen
      requires st.memoryUsage + Memory(skbs) < TWO32
      modifies this`st
      ensures Valid() && Received(old(st), st, f, skbs) && Joined(c, old(st), st, t, f)
    {
      AdmitValid(c, st, t, f, skbs);
      AdmitJoins(c, st, t, f, skbs);
      AdmitReceives(c, st, t, f, skbs);
      AppendKeepsLinks(st, t, f, skbs);
      st := MarkBacklogged(st, f);
      AppendAll(t, f, skbs);
      if !IsLinked(st, f) {
        st := Activate(c, st, t, f);
      }
    }

    /** Unlinking one packet from a queue (fq_impl.h:267-269). */
    method Expel(f: FlowId, k: nat)
      requires Valid() && f in st.flows && k < |st.flows[f].queue|
      modifies this`st
      ensures Valid() && OnlyQueue(old(st), st, f) && st.flows[f].queue == Cut(old(st).flows[f].queue, k)
    {
      var q := st.flows[f].queue;
      RemoveOne(c, st, f, k);
      ShrinkOnlyQueue(st, f, Cut(q, k));
      st := AdjustRemoval(SetQueue(st, f, Cut(q, k)), f, 1, q[k].len, q[k].truesize);
    }

    /** fq_flow_filter. */
    method FlowFilter(f: FlowId, drop: Skb -> bool)
      requires Valid() && f in st.flows
      modifies this`st
      ensures Valid() && OnlyQueue(old(st), st, f)
      ensures st.flows[f].queue == Kept(old(st).flows[f].queue, drop)
    {
      ghost var s0 := st;
      FilteringStarts(s0, f, drop);
      var k := 0;
      while k < |st.flows[f].queue|
        invariant Valid() && f in st.flows && Filtering(s0, st, f, k, drop)
        decreases |st.flows[f].queue| - k
      {
        if drop(st.flows[f].queue[k]) {
          ghost var s1 := st;
          Expel(f, k);
          FilteringCuts(s0, s1, st, f, k, drop);
        } else {
          FilteringKeeps(s0, st, f, k, drop);
          k := k + 1;
        }
      }
      FilteringEnds(s0, st, f, k, drop);
    }

    /** One loop of fq_tin_filter. */
    method FilterList(l: seq<FlowId>, drop: Skb -> bool)
      requires Valid() && NoDup(l) && forall f :: f in l ==> f in st.flows
      modifies this`st
      ensures Valid() && Filtered(old(st), st, l, drop)
    {
      for i := 0 to |l|
        invariant Valid() && Filtered(old(st), st, l[..i], drop)
      {
        ghost var s1 := st;
        assert l[i] in l;
        FlowFilter(l[i], drop);
        FilteredOneMore(old(st), s1, st, l, i, drop);
      }
      assert l[..|l|] == l;
    }

    /** fq_tin_filter. */
    method TinFilter(t: TinId, drop: Skb -> bool)
      requires Valid() && t in st.tins
      modifies this`st
      ensures Valid() && TinFiltered(old(st), st, t, drop)
      ensures Paced(c, Moment(old(st), ledger), Moment(st, ledger))
    {
      var tin := st.tins[t];
      assert TinLinked(st, t);
      assert forall f :: f in tin.newFlows || f in tin.oldFlows ==> InChain(tin, f);
      FilterList(tin.newFlows, drop);
      ghost var s1 := st;
      FilterList(tin.oldFlows, drop);
      FilteredTwice(old(st), s1, st, tin.newFlows, tin.oldFlows, drop);
      FilteredTin(old(st), st, t, drop);
      ScheduleOlds(old(st), st);
      SameOldsPaced(c, old(st), ledger, st);
    }

    /** The loop of fq_flow_reset. */
    method Drain(f: FlowId, t: TinId)
      requires Valid() && f in st.flows && st.flows[f].tin == Some(t)
      modifies this`st
      ensures Valid() && OnlyTin(old(st), st, t) && SameLinks(old(st), st) && OnlyFlow(old(st), st, f)
      ensures st.flows[f].queue == [] && st.flows[f].backlog == 0
    {
      ghost var s0 := st;
      var skb: Option<Skb> := None;
      while st.flows[f].queue != []
        invariant Valid() && OnlyTin(s0, st, t) && SameLinks(s0, st) && f in st.flows && st.flows[f].tin == Some(t)
        invariant OnlyFlow(s0, st, f)
        decreases |st.flows[f].queue|
      {
        ghost var s1 := st;
        skb := FlowDequeue(f);
        ShrinkOnlyTin(s1, t, f, s1.flows[f].queue[1..]);
        ShrinkOnlyFlow(s1, f, s1.flows[f].queue[1..]);
        ShrinkSchedule(s1, f, s1.flows[f].queue[1..]);
        OnlyTinChains(s0, s1, st, t);
      }
      assert FlowOk(c, st.flows[f]);
    }

    /** A drained flow leaves its tin (fq_impl.h:299-306). */
    method Leave(f: FlowId, t: TinId)
      requires Valid() && t in st.tins && f in st.flows && st.flows[f].tin == Some(t) && st.flows[f].queue == []
      modifies this`st
      ensures Valid() && OnlyTin(old(st), st, t) && OnlyFlow(old(st), st, f)
      ensures st.flows[f] == old(st).flows[f].(tin := None)
      ensures st.tins[t].newFlows == Without(old(st).tins[t].newFlows, f)
      ensures st.tins[t].oldFlows == Without(old(st).tins[t].oldFlows, f)
    {
      UnlinkValid(c, st, t, f);
      UnlinkOnlyTin(st, t, f);
      st := Unlink(st, t, f);
      if st.tins[t].newFlows == [] && st.tins[t].oldFlows == [] {
        LastFlowGone(c, st, t);
        st := st.(tinBacklog := Without(st.tinBacklog, t));
      }
    }

    /** fq_flow_reset. A flow that no tin owns is empty and unlinked already. */
    method FlowReset(f: FlowId)
      requires Valid() && f in st.flows
      modifies this`st
      ensures Valid() && OnlyFlow(old(st), st, f)
      ensures st.flows[f].tin.None? && st.flows[f].queue == [] && st.flows[f].backlog == 0
      ensures match old(st).flows[f].tin
              case None => st == old(st)
              case Some(t) =>
                && OnlyTin(old(st), st, t) && t in old(st).tins
                && st.tins[t].newFlows == Without(old(st).tins[t].newFlows, f)
                && st.tins[t].oldFlows == Without(old(st).tins[t].oldFlows, f)
    {
      assert FlowLinked(st, f) && FlowOk(c, st.flows[f]);
      if st.flows[f].tin.Some? {
        var t := st.flows[f].tin.value;
        Drain(f, t);
        ghost var s1 := st;
        Leave(f, t);
        OnlyTinChains(old(st), s1, st, t);
      }
    }

    /** The loop of fq_reset: the hashed flows are empty and owned by no tin, and the default flows
        of the tins are left as they are. */
    method Reset()
      requires Valid()
      modifies this`st
      ensures Valid() && Drained(old(st), st, c.flowsCnt) && st.bitmap == {}
    {
      for i := 0 to c.flowsCnt
        invariant Valid() && Drained(old(st), st, i)
      {
        ghost var s1 := st;
        FlowReset(Hashed(i));
        DrainedOneMore(old(st), s1, st, i);
      }
      assert forall i :: i in st.bitmap ==> Hashed(i) in st.flows;
    }

    /** fq_tin_reset; the three facts at the end are what its WARNs watch for. */
    method TinReset(t: TinId)
      requires Valid() && t in st.tins
      modifies this`st
      ensures Valid() && OnlyTin(old(st), st, t)
      ensures t !in st.tinBacklog && st.tins[t].backlogBytes == 0 && st.tins[t].backlogPackets == 0
      ensures st.tins[t].newFlows == [] && st.tins[t].oldFlows == []
      ensures Paced(c, Moment(old(st), ledger), Moment(st, ledger))
    {
      ghost var s0 := st;
      while st.tins[t].newFlows != [] || st.tins[t].oldFlows != []
        invariant Valid() && OnlyTin(s0, st, t) && t in st.tins
        decreases |st.tins[t].newFlows| + |st.tins[t].oldFlows|
      {
        ghost var s1 := st;
        var tin := st.tins[t];
        var f := if tin.newFlows != [] then tin.newFlows[0] else tin.oldFlows[0];
        HeadOwned(st, t, f);
        assert TinLinked(st, t);
        HeadMoves(tin, f);
        FlowReset(f);
        OnlyTinChains(s0, s1, st, t);
      }
      LastFlowGone(c, st, t);
      UnlinkedEmpty(st, t);
      TinEmptyIffZero(st, t);
      OnlyTinPaced(c, s0, ledger, st, t);
    }

    /** Any operation, at any moment at which it is enabled. */
    method Perform(op: Operation) returns (out: Option<Delivery>)
      requires Valid() && Enabled(c, st, op)
      modifies this`st, this`ledger
      ensures Valid() && Paced(c, Moment(old(st), old(ledger)), Moment(st, ledger))
      ensures Stepped(c, old(st), op, st, out) && Booked(old(ledger), ledger, out)
    {
      out := None;
      match op {
        case CreateTin(t) =>
          AddTin(t);
        case Enqueue(t, idx, skbs) =>
          ghost var into := TinEnqueue(t, idx, skbs);
        case Dequeue(t) =>
          var skb, from := TinDequeue(t);
          if skb.Some? {
            out := Some(Delivery(from, skb.value));
          }
        case FilterTin(t, drop) =>
          TinFilter(t, drop);
        case ResetTin(t) =>
          TinReset(t);
      }
    }

    /** One operation of a run, skipped if it is not enabled. */
    method TakeTurn(op: Operation) returns (out: Option<Delivery>)
      requires Valid()
      modifies this`st, this`ledger
      ensures Valid() && Paced(c, Moment(old(st), old(ledger)), Moment(st, ledger))
      ensures Turn(c, Moment(old(st), old(ledger)), op, Moment(st, ledger), out) && Booked(old(ledger), ledger, out)
    {
      out := None;
      if Enabled(c, st, op) {
        out := Perform(op);
      } else {
        OnPaceStart(c, st, ledger);
        OnPacePaced(c, st, ledger, st, ledger);
      }
    }

    /** Any sequence of operations; one that is not enabled when its turn comes is skipped. `outs`
        are the packets handed out, `run` the moments passed through: each operation does what it
        promises, the ledger is the bytes handed out, and two flows that stay backlogged among the
        old flows of a tin are served evenly. */
    method Run(ops: seq<Operation>) returns (outs: seq<Option<Delivery>>, ghost run: seq<Moment>)
      requires Valid()
      modifies this`st, this`ledger
      ensures Valid() && Recorded(c, ops, run, outs)
      ensures run[0] == Moment(old(st), old(ledger)) && run[|ops|] == Moment(st, ledger)
      ensures Fair(c, run, outs)
    {
      outs, run := [], [Moment(st, ledger)];
      RecordedStart(c, Moment(st, ledger));
      for i := 0 to |ops|
        invariant Valid() && Recorded(c, ops[..i], run, outs)
        invariant run[0] == Moment(old(st), old(ledger)) && run[i] == Moment(st, ledger)
      {
        var out := TakeTurn(ops[i]);
        RecordedGrows(c, ops, i, run, outs, Moment(st, ledger), out);
        run, outs := run + [Moment(st, ledger)], outs + [out];
      }
      assert ops[..|ops|] == ops;
      FairRun(c, ops, run, outs);
    }
  }

  /** fq_init with its default parameters, and then any sequence of operations. */
  method RunFresh(flowsCnt: nat, maxLen: nat, ops: seq<Operation>) returns (outs: seq<Option<Delivery>>, ghost run: seq<Moment>)
    ensures var c := DefaultConfig(flowsCnt, maxLen);
            && Recorded(c, ops, run, outs) && run[0].s == InitialState(c)
            && forall i, j, t, a, b :: ContendDuring(run, i, j, t, a, b) ==>
                 -(900 + 2 * maxLen) < BytesFrom(outs[i..j], a) - BytesFrom(outs[i..j], b) < 900 + 2 * maxLen
  {
    var fq := new Scheduler(DefaultConfig(flowsCnt, maxLen));
    outs, run := fq.Run(ops);
    forall i, j, t, a, b | ContendDuring(run, i, j, t, a, b)
      ensures -(900 + 2 * maxLen) < BytesFrom(outs[i..j], a) - BytesFrom(outs[i..j], b) < 900 + 2 * maxLen
    {
      assert Even(fq.c, outs[i..j], a, b);
    }
  }
}
