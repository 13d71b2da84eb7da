/** Fairness is about something: from the empty scheduler two flows get to contend, and go on
    contending while packets are handed out. */
module FqExample {
  import opened Common
  import opened FqState
  import opened FqSteps
  import opened FqSchedule
  import opened FqFair
  import opened Fq

  const P: Skb := Packet(0, 300, 300)
  const A := Hashed(0)
  const B := Hashed(1)
  const C := DefaultConfig(2, 300)

  /** Two bursts of three packets for two flows of one tin, then four dequeues. */
  const Ops: seq<Operation> := [CreateTin(0), Enqueue(0, 0, [P, P, P]), Enqueue(0, 1, [P, P, P]),
                                Dequeue(0), Dequeue(0), Dequeue(0), Dequeue(0)]

  /** The lists of the tin, and the two flows. */
  ghost predicate Looks(s: State, news: seq<FlowId>, olds: seq<FlowId>, dA: int, qA: seq<Skb>, dB: int, qB: seq<Skb>) {
    && 0 in s.tins && s.tins[0].newFlows == news && s.tins[0].oldFlows == olds
    && A in s.flows && s.flows[A].deficit == dA && s.flows[A].queue == qA
    && B in s.flows && s.flows[B].deficit == dB && s.flows[B].queue == qB
  }

  // ----- the run, one operation at a time -----

  /** Always true; it keeps what is known of a run out of proofs that do not ask for it. */
  ghost predicate Opened(run: seq<Moment>) {
    true
  }

  /** A run of these operations from the empty scheduler. */
  ghost predicate Performs(run: seq<Moment>, outs: seq<Option<Delivery>>) {
    && |run| == |Ops| + 1 && |outs| == |Ops|
    && forall r: seq<Moment> :: Opened(r) && r == run ==> Recorded(C, Ops, r, outs) && r[0].s == InitialState(C)
  }

  /** An operation that is enabled is performed. */
  lemma Performed(run: seq<Moment>, outs: seq<Option<Delivery>>, i: nat)
    requires Performs(run, outs) && i < |Ops| && Enabled(C, run[i].s, Ops[i])
    ensures Stepped(C, run[i].s, Ops[i], run[i + 1].s, outs[i])
  {
    assert Opened(run);
    assert Turn(C, run[i], Ops[i], run[i + 1], outs[i]);
  }

  lemma Starts(run: seq<Moment>, outs: seq<Option<Delivery>>)
    requires Performs(run, outs)
    ensures run[1].s == WithTin(InitialState(C), 0)
  {
    assert Opened(run);
    Performed(run, outs, 0);
  }

  // ----- filling the queues -----

  lemma Burst()
    ensures Memory([P, P, P]) == 900
  {
    assert [P, P, P] == [P] + [P] + [P];
    TotalsAppend([P] + [P], [P]);
    TotalsAppend([P], [P]);
    assert [P][1..] == [];
  }

  /** The owner, queue and deficit of a flow. */
  ghost predicate Is(s: State, f: FlowId, tin: Option<TinId>, q: seq<Skb>, d: int) {
    f in s.flows && s.flows[f].tin == tin && s.flows[f].queue == q && s.flows[f].deficit == d
  }

  /** The tin has these new flows and no old ones, and `n` packets are queued. */
  ghost predicate Filling(s: State, news: seq<FlowId>, n: nat) {
    0 in s.tins && s.tins[0].newFlows == news && s.tins[0].oldFlows == [] && s.backlog == n && s.memoryUsage == 300 * n
  }

  /** Three packets arrive in the flow `f` of no tin. */
  lemma Arrives(s: State, s': State, f: FlowId, news: seq<FlowId>, n: nat)
    requires Filling(s, news, n) && Is(s, f, None, [], 0) && Joined(C, s, s', 0, f) && NothingLost(s, s', f, [P, P, P])
    ensures Filling(s', news + [f], n + 3) && Is(s', f, Some(0), [P, P, P], 300)
    ensures OthersSame(s, s', f)
  {
    Burst();
    assert [] + [P, P, P] == [P, P, P];
  }

  lemma Room(s: State, news: seq<FlowId>, n: nat, k: nat)
    requires Filling(s, news, n) && n <= 3 && k < 2
    ensures Enabled(C, s, Enqueue(0, k, [P, P, P])) && WithinLimits(C, s, [P, P, P])
  {
    Burst();
  }

  lemma Joins(c: Config, s: State, s': State, k: nat, skbs: seq<Skb>, out: Option<Delivery>)
    requires Is(s, Hashed(k), None, [], 0) && WithinLimits(c, s, skbs) && Stepped(c, s, Enqueue(0, k, skbs), s', out)
    ensures Joined(c, s, s', 0, Hashed(k)) && NothingLost(s, s', Hashed(k), skbs)
  {
    assert Classified(s, 0, k) == Hashed(k);
  }

  /** Nothing but the flow `f` has changed. */
  ghost predicate OthersSame(s: State, s': State, f: FlowId) {
    forall g :: g in s.flows && g != f ==> Is(s', g, s.flows[g].tin, s.flows[g].queue, s.flows[g].deficit)
  }

  lemma EnqueueJoins(run: seq<Moment>, outs: seq<Option<Delivery>>, i: nat, k: nat, skbs: seq<Skb>)
    requires Performs(run, outs) && i < |Ops| && Ops[i] == Enqueue(0, k, skbs) && Enabled(C, run[i].s, Ops[i])
    requires Is(run[i].s, Hashed(k), None, [], 0) && WithinLimits(C, run[i].s, skbs)
    ensures Joined(C, run[i].s, run[i + 1].s, 0, Hashed(k)) && NothingLost(run[i].s, run[i + 1].s, Hashed(k), skbs)
  {
    Performed(run, outs, i);
    Joins(C, run[i].s, run[i + 1].s, k, skbs, outs[i]);
  }

  lemma EnqueueFills(run: seq<Moment>, outs: seq<Option<Delivery>>, i: nat, k: nat, skbs: seq<Skb>, news: seq<FlowId>, n: nat)
    requires Performs(run, outs) && i < |Ops| && Ops[i] == Enqueue(0, k, skbs) && skbs == [P, P, P]
    requires Filling(run[i].s, news, n) && n <= 3 && k < 2 && Is(run[i].s, Hashed(k), None, [], 0)
    ensures Filling(run[i + 1].s, news + [Hashed(k)], n + 3) && Is(run[i + 1].s, Hashed(k), Some(0), [P, P, P], 300)
    ensures OthersSame(run[i].s, run[i + 1].s, Hashed(k))
  {
    Room(run[i].s, news, n, k);
    EnqueueJoins(run, outs, i, k, skbs);
    Arrives(run[i].s, run[i + 1].s, Hashed(k), news, n);
  }

  lemma Fills(run: seq<Moment>, outs: seq<Option<Delivery>>)
    requires Performs(run, outs) && Filling(run[1].s, [], 0) && Is(run[1].s, A, None, [], 0) && Is(run[1].s, B, None, [], 0)
    ensures Looks(run[3].s, [A, B], [], 300, [P, P, P], 300, [P, P, P])
  {
    assert [] + [A] == [A] && [A] + [B] == [A, B];
    EnqueueFills(run, outs, 1, 0, [P, P, P], [], 0);
    EnqueueFills(run, outs, 2, 1, [P, P, P], [A], 3);
  }

  // ----- one dequeue -----

  /** What serving a flow changes. */
  ghost predicate Sent(s: State, s': State, t: TinId, f: FlowId) {
    && t in s.tins && t in s'.tins && s'.flows.Keys == s.flows.Keys
    && s'.tins[t].newFlows == s.tins[t].newFlows && s'.tins[t].oldFlows == s.tins[t].oldFlows
    && f in s.flows && s.flows[f].queue != [] && s'.flows[f].queue == s.flows[f].queue[1..]
    && s'.flows[f].deficit == s.flows[f].deficit - s.flows[f].queue[0].len
    && forall g :: g in s.flows && g != f ==> s'.flows[g] == s.flows[g]
  }

  lemma ServedSends(s: State, t: TinId, f: FlowId)
    requires t in s.tins && f in s.flows && s.flows[f].queue != [] && CanShrink(s, f, s.flows[f].queue[1..])
    ensures Sent(s, Served(s, t, f), t, f)
  {
  }

  /** A flow with credit and a packet at the head is served. */
  lemma Serves(c: Config, s: State, t: TinId, s': State, out: Option<Delivery>)
    requires Dequeued(c, s, t, s', out) && Settled(s, t) && (s.tins[t].newFlows != [] || s.tins[t].oldFlows != [])
    ensures var f := Head(s.tins[t]);
            Sent(s, s', t, f) && out == Some(Delivery(f, s.flows[f].queue[0]))
  {
    ServedSends(s, t, Head(s.tins[t]));
  }

  /** The tin's lists once its first flow is the last of the old ones. */
  ghost predicate Rotated(tn: Tin, tn': Tin, f: FlowId)
    requires tn.newFlows != [] || tn.oldFlows != []
  {
    && tn'.newFlows == (if tn.newFlows != [] then tn.newFlows[1..] else [])
    && tn'.oldFlows == (if tn.newFlows != [] then tn.oldFlows else tn.oldFlows[1..]) + [f]
  }

  /** `f`, without credit, stands at the head and `h`, with credit and a packet, behind it. */
  ghost predicate NextBehind(s: State, t: TinId, f: FlowId, h: FlowId) {
    && f != h && t in s.tins && f in s.flows && h in s.flows
    && (s.tins[t].newFlows != [] || s.tins[t].oldFlows != []) && Head(s.tins[t]) == f
    && (forall tn :: Rotated(s.tins[t], tn, f) ==> Head(tn) == h)
    && s.flows[f].deficit <= 0 && s.flows[h].deficit > 0 && s.flows[h].queue != []
  }

  /** `f` gets a quantum and goes to the end. */
  lemma Turns(c: Config, s: State, t: TinId, f: FlowId, h: FlowId)
    requires ValidConfig(c) && FqState.Valid(c, s) && NextBehind(s, t, f, h)
    ensures var s1 := Replenish(c, s, t, f);
            Settled(s1, t) && Rotated(s.tins[t], s1.tins[t], f) && Head(s1.tins[t]) == h && Scan(c, s, t) == s1
  {
    AdvanceStep(c, s, t);
    assert TinLinked(s, t);
    HeadMoves(s.tins[t], f);
    var s1 := Replenish(c, s, t, f);
    assert Rotated(s.tins[t], s1.tins[t], f);
    assert Settled(s1, t);
  }

  /** What a dequeue does when the first flow is out of credit and the second is not. */
  ghost predicate Alternated(c: Config, s: State, s': State, t: TinId, f: FlowId, h: FlowId) {
    && t in s.tins && (s.tins[t].newFlows != [] || s.tins[t].oldFlows != [])
    && t in s'.tins && Rotated(s.tins[t], s'.tins[t], f)
    && f in s.flows && f in s'.flows && s'.flows[f] == s.flows[f].(deficit := s.flows[f].deficit + c.quantum)
    && h in s.flows && h in s'.flows && s.flows[h].queue != [] && s'.flows[h].queue == s.flows[h].queue[1..]
    && s'.flows[h].deficit == s.flows[h].deficit - s.flows[h].queue[0].len
  }

  lemma Alternates(c: Config, s: State, t: TinId, s': State, out: Option<Delivery>, f: FlowId, h: FlowId)
    requires Dequeued(c, s, t, s', out) && NextBehind(s, t, f, h)
    ensures Alternated(c, s, s', t, f, h) && out == Some(Delivery(h, s.flows[h].queue[0]))
  {
    Turns(c, s, t, f, h);
    var s1 := Replenish(c, s, t, f);
    ServedSends(s1, t, h);
  }

  lemma Dequeues(run: seq<Moment>, outs: seq<Option<Delivery>>, i: nat)
    requires Performs(run, outs) && 3 <= i < 7 && 0 in run[i].s.tins
    ensures Dequeued(C, run[i].s, 0, run[i + 1].s, outs[i])
  {
    assert Ops[i] == Dequeue(0);
    Performed(run, outs, i);
  }

  lemma First(run: seq<Moment>, outs: seq<Option<Delivery>>)
    requires Performs(run, outs) && Looks(run[3].s, [A, B], [], 300, [P, P, P], 300, [P, P, P])
    ensures Looks(run[4].s, [A, B], [], 0, [P, P], 300, [P, P, P])
  {
    Dequeues(run, outs, 3);
    Serves(C, run[3].s, 0, run[4].s, outs[3]);
  }

  lemma DequeueAlternates(run: seq<Moment>, outs: seq<Option<Delivery>>, i: nat, f: FlowId, h: FlowId)
    requires Performs(run, outs) && 3 <= i < 7 && NextBehind(run[i].s, 0, f, h)
    ensures Alternated(C, run[i].s, run[i + 1].s, 0, f, h)
    ensures outs[i] == Some(Delivery(h, run[i].s.flows[h].queue[0]))
  {
    Dequeues(run, outs, i);
    Alternates(C, run[i].s, 0, run[i + 1].s, outs[i], f, h);
  }

  lemma Second(run: seq<Moment>, outs: seq<Option<Delivery>>)
    requires Performs(run, outs) && Looks(run[4].s, [A, B], [], 0, [P, P], 300, [P, P, P])
    ensures Looks(run[5].s, [B], [A], 300, [P, P], 0, [P, P])
  {
    DequeueAlternates(run, outs, 4, A, B);
  }

  lemma Third(run: seq<Moment>, outs: seq<Option<Delivery>>)
    requires Performs(run, outs) && Looks(run[5].s, [B], [A], 300, [P, P], 0, [P, P])
    ensures Looks(run[6].s, [], [A, B], 0, [P], 300, [P, P])
  {
    DequeueAlternates(run, outs, 5, B, A);
  }

  lemma Fourth(run: seq<Moment>, outs: seq<Option<Delivery>>)
    requires Performs(run, outs) && Looks(run[6].s, [], [A, B], 0, [P], 300, [P, P])
    ensures Looks(run[7].s, [], [B, A], 300, [P], 0, [P]) && outs[6] == Some(Delivery(B, P))
  {
    DequeueAlternates(run, outs, 6, A, B);
  }

  // ----- the whole run -----

  lemma Contends(run: seq<Moment>, outs: seq<Option<Delivery>>)
    requires Performs(run, outs)
    ensures ContendDuring(run, 6, 7, 0, A, B)
    ensures BytesFrom(outs[6..7], A) == 0 && BytesFrom(outs[6..7], B) == 300
  {
    Starts(run, outs);
    Fills(run, outs);
    First(run, outs);
    Second(run, outs);
    Third(run, outs);
    Fourth(run, outs);
    assert outs[6..7] == [outs[6]] && [outs[6]][..0] == [];
  }

  /** In every run of these operations from the empty scheduler the two flows contend before and
      after the last of them, which hands out a packet. */
  lemma ContentionArises(run: seq<Moment>, outs: seq<Option<Delivery>>)
    requires Recorded(C, Ops, run, outs) && run[0].s == InitialState(C)
    ensures ContendDuring(run, 6, 7, 0, A, B)
    ensures BytesFrom(outs[6..7], A) == 0 && BytesFrom(outs[6..7], B) == 300
  {
    Contends(run, outs);
  }

  /** Such a run exists: it is performed. */
  method Contention() returns (outs: seq<Option<Delivery>>, ghost run: seq<Moment>)
    ensures Recorded(C, Ops, run, outs) && run[0].s == InitialState(C) && ContendDuring(run, 6, 7, 0, A, B)
    ensures BytesFrom(outs[6..7], A) == 0 && BytesFrom(outs[6..7], B) == 300
  {
    outs, run := RunFresh(2, 300, Ops);
    ContentionArises(run, outs);
  }
}
