/** State of the fair-queueing scheduler (include/net/fq.h) and what every operation of
    include/net/fq_impl.h keeps of it. */
module FqState {
  import opened Common

  const TWO32 := 0x1_0000_0000
  type U32 = x: int | 0 <= x < TWO32

  /** A 32-bit statistics counter, which is allowed to wrap. */
  function Bump(a: U32, n: nat): U32 {
    (a + n) % TWO32
  }

  // ----- data -----

  datatype Packet = Packet(id: nat, len: nat, truesize: nat)

  /** A socket buffer: not empty, and no larger than the memory accounted for it. */
  type Skb = p: Packet | 0 < p.len <= p.truesize witness Packet(0, 1, 1)

  type TinId = nat

  /** One of the hashed flows of struct fq, or the default flow inside a tin. */
  datatype FlowId = Hashed(index: nat) | DefaultOf(t: TinId)

  /** struct fq_flow; its list node `flowchain` is the membership in a tin's lists. */
  datatype Flow = Flow(tin: Option<TinId>, queue: seq<Skb>, backlog: U32, deficit: int)

  /** struct fq_tin; its list node `tin_list` is the membership in tinBacklog. */
  datatype Tin = Tin(newFlows: seq<FlowId>, oldFlows: seq<FlowId>, backlogBytes: U32, backlogPackets: U32,
                     overlimit: U32, collisions: U32, flows: U32, txBytes: U32, txPackets: U32)

  /** The parts of struct fq that operations change. */
  datatype State = State(flows: map<FlowId, Flow>, tins: map<TinId, Tin>, bitmap: set<nat>, tinBacklog: seq<TinId>,
                         backlog: U32, memoryUsage: U32, overlimit: U32, overmemory: U32, collisions: U32)

  /** The parameters; `maxLen` is a bound on the length of any packet. */
  datatype Config = Config(flowsCnt: nat, limit: U32, memoryLimit: U32, quantum: nat, maxLen: nat)

  ghost predicate ValidConfig(c: Config) {
    c.flowsCnt > 0 && c.quantum > 0
  }

  // ----- lists -----

  /** list_del. */
  function Without<T(==)>(l: seq<T>, x: T): (r: seq<T>)
    ensures forall y :: y in r ==> y in l
    ensures forall y :: y in l && y != x ==> y in r
    ensures x !in l ==> r == l
  {
    if l == [] then []
    else if l[0] == x then l[1..]
    else [l[0]] + Without(l[1..], x)
  }

  lemma {:induction false} WithoutNoDup<T>(l: seq<T>, x: T)
    requires NoDup(l)
    ensures NoDup(Without(l, x)) && x !in Without(l, x)
  {
    if l != [] && l[0] != x {
      WithoutNoDup(l[1..], x);
      var r := Without(l[1..], x);
      assert l[0] !in r;
      forall i, j | 0 <= i < j < |r| + 1 ensures ([l[0]] + r)[i] != ([l[0]] + r)[j] {
        assert ([l[0]] + r)[j] == r[j - 1];
      }
    }
  }

  predicate InChain(tin: Tin, f: FlowId) {
    f in tin.newFlows || f in tin.oldFlows
  }

  predicate Chained(tin: Tin) {
    NoDup(tin.newFlows) && NoDup(tin.oldFlows) && forall f :: f in tin.newFlows ==> f !in tin.oldFlows
  }

  // ----- totals -----

  function Bytes(q: seq<Skb>): nat {
    if q == [] then 0 else q[0].len + Bytes(q[1..])
  }

  function Memory(q: seq<Skb>): nat {
    if q == [] then 0 else q[0].truesize + Memory(q[1..])
  }

  lemma {:induction false} TotalsAppend(q: seq<Skb>, r: seq<Skb>)
    ensures Bytes(q + r) == Bytes(q) + Bytes(r) && Memory(q + r) == Memory(q) + Memory(r)
  {
    if q == [] {
      assert q + r == r;
    } else {
      assert (q + r)[1..] == q[1..] + r;
      TotalsAppend(q[1..], r);
    }
  }

  lemma {:induction false} TotalsBound(q: seq<Skb>)
    ensures |q| <= Bytes(q) <= Memory(q)
    ensures Bytes(q) == 0 <==> q == []
  {
    if q != [] {
      TotalsBound(q[1..]);
    }
  }

  /** The sum of the values of a map. */
  ghost function Sum<K(!new)>(m: map<K, nat>): nat {
    if m == map[] then 0
    else
      var k :| k in m;
      m[k] + Sum(m - {k})
  }

  lemma {:induction false} SumPick<K(!new)>(m: map<K, nat>, k: K)
    requires k in m
    ensures Sum(m) == m[k] + Sum(m - {k})
    decreases |m|
  {
    var j :| j in m && Sum(m) == m[j] + Sum(m - {j});
    if j != k {
      SumPick(m - {j}, k);
      SumPick(m - {k}, j);
      assert m - {j} - {k} == m - {k} - {j};
    }
  }

  lemma SumUpdate<K(!new)>(m: map<K, nat>, k: K, v: nat)
    requires k in m
    ensures Sum(m[k := v]) == Sum(m) - m[k] + v
    ensures Sum(m) >= m[k]
  {
    SumPick(m, k);
    SumPick(m[k := v], k);
    assert m[k := v] - {k} == m - {k};
  }

  lemma {:induction false} SumMono<K(!new)>(m: map<K, nat>, n: map<K, nat>)
    requires m.Keys == n.Keys && forall k :: k in m ==> m[k] <= n[k]
    ensures Sum(m) <= Sum(n)
    decreases |m|
  {
    if m != map[] {
      var k :| k in m;
      SumPick(m, k);
      SumPick(n, k);
      SumMono(m - {k}, n - {k});
    }
  }

  lemma {:induction false} SumZero<K(!new)>(m: map<K, nat>)
    requires forall k :: k in m ==> m[k] == 0
    ensures Sum(m) == 0
    decreases |m|
  {
    if m != map[] {
      var k :| k in m;
      SumPick(m, k);
      SumZero(m - {k});
    }
  }

  /** Always true; it keeps the recursive sum out of proofs that do not ask for it. */
  ghost predicate Weighed(m: map<FlowId, nat>) {
    true
  }

  /** `n` is the sum of the values of `m`. */
  ghost predicate Total(m: map<FlowId, nat>, n: nat) {
    forall w :: Weighed(w) && w == m ==> n == Sum(w)
  }

  lemma TotalMeans(m: map<FlowId, nat>, n: nat)
    ensures Total(m, n) <==> n == Sum(m)
  {
    assert Weighed(m);
  }

  lemma TotalAtLeast(m: map<FlowId, nat>, n: nat, k: FlowId)
    requires Total(m, n) && k in m
    ensures n >= m[k]
  {
    TotalMeans(m, n);
    SumPick(m, k);
  }

  /** A total after the weight of `k` changed from `m[k]` to `v`. */
  lemma TotalUpdate(m: map<FlowId, nat>, n: nat, k: FlowId, v: nat)
    requires Total(m, n) && k in m
    ensures n >= m[k] && Total(m[k := v], n - m[k] + v)
  {
    TotalMeans(m, n);
    SumUpdate(m, k, v);
    TotalMeans(m[k := v], n - m[k] + v);
  }

  lemma TotalMono(m: map<FlowId, nat>, n: nat, m': map<FlowId, nat>, n': nat)
    requires Total(m, n) && Total(m', n') && m.Keys == m'.Keys && forall k :: k in m ==> m[k] <= m'[k]
    ensures n <= n'
  {
    TotalMeans(m, n);
    TotalMeans(m', n');
    SumMono(m, m');
  }

  /** A total is zero exactly when every weight is. */
  lemma TotalZero(m: map<FlowId, nat>, n: nat)
    requires Total(m, n)
    ensures n == 0 <==> forall k :: k in m ==> m[k] == 0
  {
    TotalMeans(m, n);
    if forall k :: k in m ==> m[k] == 0 {
      SumZero(m);
    } else {
      var k :| k in m && m[k] != 0;
      SumPick(m, k);
    }
  }

  ghost function PacketsOf(flows: map<FlowId, Flow>): map<FlowId, nat> {
    map f | f in flows :: |flows[f].queue|
  }

  ghost function MemoryOf(flows: map<FlowId, Flow>): map<FlowId, nat> {
    map f | f in flows :: Memory(flows[f].queue)
  }

  ghost function TinBytesOf(flows: map<FlowId, Flow>, t: TinId): map<FlowId, nat> {
    map f | f in flows :: if flows[f].tin == Some(t) then Bytes(flows[f].queue) else 0
  }

  ghost function TinPacketsOf(flows: map<FlowId, Flow>, t: TinId): map<FlowId, nat> {
    map f | f in flows :: if flows[f].tin == Some(t) then |flows[f].queue| else 0
  }

  // ----- the invariant -----

  /** The flows are the hashed ones and one default flow per tin. */
  ghost predicate Present(c: Config, s: State) {
    && (forall i: nat :: Hashed(i) in s.flows <==> i < c.flowsCnt)
    && (forall t: TinId :: DefaultOf(t) in s.flows <==> t in s.tins)
  }

  /** A flow is owned by a tin exactly when it is linked in one of that tin's lists; a flow
      that is owned by none is empty; a default flow is owned by its own tin or by none. */
  ghost predicate Linked(s: State) {
    && (forall t {:trigger TinLinked(s, t)} :: t in s.tins ==> TinLinked(s, t))
    && (forall f {:trigger FlowLinked(s, f)} :: f in s.flows ==> FlowLinked(s, f))
  }

  ghost predicate TinLinked(s: State, t: TinId)
    requires t in s.tins
  {
    Chained(s.tins[t]) &&
    forall f {:trigger InChain(s.tins[t], f)} :: InChain(s.tins[t], f) ==> f in s.flows && s.flows[f].tin == Some(t)
  }

  ghost predicate FlowLinked(s: State, f: FlowId)
    requires f in s.flows
  {
    var fl := s.flows[f];
    && (fl.tin.Some? ==> fl.tin.value in s.tins && InChain(s.tins[fl.tin.value], f))
    && (fl.tin.None? ==> fl.queue == [])
    && (f.DefaultOf? && fl.tin.Some? ==> fl.tin.value == f.t)
  }

  ghost predicate FlowOk(c: Config, fl: Flow) {
    && fl.backlog == Bytes(fl.queue)
    && (forall k :: 0 <= k < |fl.queue| ==> fl.queue[k].len <= c.maxLen)
    && (fl.tin.Some? ==> fl.deficit + c.maxLen > 0 && fl.deficit <= c.quantum)
  }

  ghost predicate FlowsOk(c: Config, s: State) {
    forall f {:trigger FlowOk(c, s.flows[f])} :: f in s.flows ==> FlowOk(c, s.flows[f])
  }

  /** The two indexes over backlogged flows. */
  ghost predicate Indexed(s: State) {
    && (forall i: nat :: i in s.bitmap <==> Hashed(i) in s.flows && s.flows[Hashed(i)].queue != [])
    && NoDup(s.tinBacklog)
    && (forall t: TinId :: t in s.tinBacklog <==> DefaultOf(t) in s.flows && s.flows[DefaultOf(t)].queue != [])
  }

  /** The counters are the sums over the queues. */
  ghost predicate Counted(s: State) {
    && Total(PacketsOf(s.flows), s.backlog)
    && Total(MemoryOf(s.flows), s.memoryUsage)
    && (forall t {:trigger TinCounted(s, t)} :: t in s.tins ==> TinCounted(s, t))
  }

  ghost predicate TinCounted(s: State, t: TinId)
    requires t in s.tins
  {
    Total(TinBytesOf(s.flows, t), s.tins[t].backlogBytes) && Total(TinPacketsOf(s.flows, t), s.tins[t].backlogPackets)
  }

  ghost predicate Valid(c: Config, s: State) {
    Present(c, s) && Linked(s) && FlowsOk(c, s) && Indexed(s) && Counted(s)
  }

  /** A flow's bytes are part of its tin's, and those of the memory in use. */
  lemma FlowWithinTotals(s: State, f: FlowId)
    requires Counted(s) && f in s.flows
    ensures |s.flows[f].queue| <= s.backlog && Memory(s.flows[f].queue) <= s.memoryUsage
    ensures forall t :: t in s.tins && s.flows[f].tin == Some(t) ==>
              Bytes(s.flows[f].queue) <= s.tins[t].backlogBytes && |s.flows[f].queue| <= s.tins[t].backlogPackets
  {
    TotalAtLeast(PacketsOf(s.flows), s.backlog, f);
    TotalAtLeast(MemoryOf(s.flows), s.memoryUsage, f);
    forall t | t in s.tins && s.flows[f].tin == Some(t)
      ensures Bytes(s.flows[f].queue) <= s.tins[t].backlogBytes && |s.flows[f].queue| <= s.tins[t].backlogPackets
    {
      assert TinCounted(s, t);
      TotalAtLeast(TinBytesOf(s.flows, t), s.tins[t].backlogBytes, f);
      TotalAtLeast(TinPacketsOf(s.flows, t), s.tins[t].backlogPackets, f);
    }
  }

  ghost predicate AllEmpty(s: State) {
    forall f :: f in s.flows ==> s.flows[f].queue == []
  }

  /** No queue holds a packet exactly when the packet counter is zero, and exactly when the
      memory counter is. */
  lemma EmptyIffZero(s: State)
    requires Counted(s)
    ensures s.backlog == 0 <==> AllEmpty(s)
    ensures s.memoryUsage == 0 <==> AllEmpty(s)
  {
    var packets, memory := PacketsOf(s.flows), MemoryOf(s.flows);
    TotalZero(packets, s.backlog);
    TotalZero(memory, s.memoryUsage);
    forall f | f in s.flows ensures (packets[f] == 0 <==> s.flows[f].queue == []) && (memory[f] == 0 <==> s.flows[f].queue == []) {
      TotalsBound(s.flows[f].queue);
    }
    assert AllEmpty(s) ==> forall f :: f in packets ==> packets[f] == 0;
    assert AllEmpty(s) ==> forall f :: f in memory ==> memory[f] == 0;
  }

  ghost predicate TinEmpty(s: State, t: TinId) {
    forall f :: f in s.flows && s.flows[f].tin == Some(t) ==> s.flows[f].queue == []
  }

  lemma TinEmptyIffZero(s: State, t: TinId)
    requires Counted(s) && t in s.tins
    ensures s.tins[t].backlogPackets == 0 <==> TinEmpty(s, t)
    ensures s.tins[t].backlogBytes == 0 <==> TinEmpty(s, t)
  {
    assert TinCounted(s, t);
    var packets, bytes := TinPacketsOf(s.flows, t), TinBytesOf(s.flows, t);
    TotalZero(packets, s.tins[t].backlogPackets);
    TotalZero(bytes, s.tins[t].backlogBytes);
    forall f | f in s.flows && s.flows[f].tin == Some(t)
      ensures (packets[f] == 0 <==> s.flows[f].queue == []) && (bytes[f] == 0 <==> s.flows[f].queue == [])
    {
      TotalsBound(s.flows[f].queue);
    }
    assert TinEmpty(s, t) ==> forall f :: f in packets ==> packets[f] == 0;
    assert TinEmpty(s, t) ==> forall f :: f in bytes ==> bytes[f] == 0;
  }
}
