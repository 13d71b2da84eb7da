/** What the overload loop of fq_tin_enqueue (include/net/fq_impl.h:234-249) throws away. */
module FqOverload {
  import opened Common
  import opened FqState
  import opened FqSteps

  /** The number of packets fq_flow_drop takes from a queue: half of them, at least one,
      no more than 32. */
  function DropCount(n: nat): nat {
    if n < 4 then (if n == 0 then 0 else 1) else if n / 2 < 32 then n / 2 else 32
  }

  predicate Over(c: Config, s: State) {
    s.backlog > c.limit || s.memoryUsage > c.memoryLimit
  }

  ghost predicate Fattest(s: State, g: FlowId) {
    g in s.flows && forall h :: h in s.flows ==> s.flows[h].backlog <= s.flows[g].backlog
  }

  /** The first `k` packets of `g` are gone and the counters follow; the other flows are as before. */
  ghost predicate Lost(s: State, s': State, g: FlowId, k: nat) {
    && g in s.flows && k <= |s.flows[g].queue| && s'.flows.Keys == s.flows.Keys
    && (forall h :: h in s.flows && h != g ==> s'.flows[h] == s.flows[h])
    && s'.flows[g].queue == s.flows[g].queue[k..] && s'.backlog == s.backlog - k
    && s'.memoryUsage == s.memoryUsage - (Memory(s.flows[g].queue) - Memory(s'.flows[g].queue))
    && s'.flows[g].backlog <= s.flows[g].backlog && s'.memoryUsage <= s.memoryUsage
  }

  /** The fattest flow loses packets from its head: half of them at most, but at least one and no
      more than 32. */
  ghost predicate Trimmed(s: State, s': State, g: FlowId, k: nat) {
    Fattest(s, g) && Lost(s, s', g, k) && 1 <= k <= 32 && (k == 1 || 2 * k <= |s.flows[g].queue|)
  }

  /** One turn of the loop: a limit is exceeded, the fattest flow is trimmed and that is counted. */
  ghost predicate OneTurn(c: Config, s: State, s': State) {
    && Over(c, s) && (exists g, k :: Trimmed(s, s', g, k))
    && s'.overlimit == Bump(s.overlimit, 1)
    && s'.overmemory == if s.memoryUsage > c.memoryLimit then Bump(s.overmemory, 1) else s.overmemory
  }

  // The quantifiers keep what a turn and the loop have done from being unfolded where it is only
  // carried.

  ghost predicate IsState(z: State, s: State) {
    z == s
  }

  ghost predicate Relief(c: Config, s: State, s': State) {
    forall z :: IsState(z, s') ==> OneTurn(c, s, z)
  }

  lemma ReliefMeans(c: Config, s: State, s': State)
    ensures Relief(c, s, s') <==> OneTurn(c, s, s')
  {
    assert IsState(s', s');
  }

  lemma DropCountMeans(n: nat)
    requires n > 0
    ensures var k := DropCount(n); 1 <= k <= 32 && k <= n && (k == 1 || 2 * k <= n) && (k == 32 || 2 * (k + 1) > n)
  {
  }

  lemma LostThenCounted(c: Config, s: State, s1: State, s': State, g: FlowId, k: nat)
    requires Over(c, s) && Fattest(s, g) && Lost(s, s1, g, k) && s.flows[g].queue != [] && k == DropCount(|s.flows[g].queue|)
    requires s'.flows == s1.flows && s'.backlog == s1.backlog && s'.memoryUsage == s1.memoryUsage
    requires s'.overlimit == Bump(s.overlimit, 1)
    requires s'.overmemory == if s.memoryUsage > c.memoryLimit then Bump(s.overmemory, 1) else s.overmemory
    ensures Relief(c, s, s') && s'.backlog < s.backlog && s'.memoryUsage <= s.memoryUsage
  {
    DropCountMeans(|s.flows[g].queue|);
    assert Trimmed(s, s', g, k);
    ReliefMeans(c, s, s');
  }

  // ----- the whole loop -----

  /** The states the loop has gone through. */
  ghost predicate Turns(c: Config, trace: seq<State>, s0: State, s: State) {
    && trace != [] && trace[0] == s0 && trace[|trace| - 1] == s
    && forall i :: 0 < i < |trace| ==> TurnAt(c, trace, i)
  }

  ghost predicate TurnAt(c: Config, trace: seq<State>, i: nat)
    requires 0 < i < |trace|
  {
    Relief(c, trace[i - 1], trace[i])
  }

  /** As many turns as it takes, and no more. */
  ghost predicate AllTurns(c: Config, s0: State, s: State) {
    !Over(c, s) && exists trace :: Turns(c, trace, s0, s)
  }

  ghost predicate Relieved(c: Config, s0: State, s: State) {
    forall z :: IsState(z, s) ==> AllTurns(c, s0, z)
  }

  lemma RelievedMeans(c: Config, s0: State, s: State)
    ensures Relieved(c, s0, s) <==> AllTurns(c, s0, s)
  {
    assert IsState(s, s);
  }

  lemma TurnsMore(c: Config, trace: seq<State>, s0: State, s: State, s': State)
    requires Turns(c, trace, s0, s) && Relief(c, s, s')
    ensures Turns(c, trace + [s'], s0, s')
  {
    var more := trace + [s'];
    forall i | 0 < i < |more| ensures TurnAt(c, more, i) {
      if i < |trace| {
        assert TurnAt(c, trace, i);
      }
    }
  }

  ghost predicate Thinner(s0: State, s: State) {
    s.flows.Keys == s0.flows.Keys && forall g :: g in s0.flows ==> s.flows[g].backlog <= s0.flows[g].backlog
  }

  /** A flow that has lost packets was at least as fat as any flow is in the end. */
  ghost predicate FromFattest(s0: State, s: State) {
    s.flows.Keys == s0.flows.Keys && forall g, h :: g in s0.flows && h in s0.flows ==>
      (s.flows[g].queue != s0.flows[g].queue ==> s0.flows[g].backlog >= s.flows[h].backlog)
  }

  lemma ReliefThins(c: Config, s0: State, s1: State, s: State)
    requires FromFattest(s0, s1) && Thinner(s0, s1) && Relief(c, s1, s)
    ensures FromFattest(s0, s) && Thinner(s0, s)
  {
    ReliefMeans(c, s1, s);
    var g, k :| Trimmed(s1, s, g, k);
    forall h | h in s0.flows ensures s.flows[h].backlog <= s1.flows[h].backlog <= s1.flows[g].backlog {
    }
  }

  lemma TurnsBefore(c: Config, trace: seq<State>, s0: State, s: State)
    requires Turns(c, trace, s0, s) && |trace| > 1
    ensures Turns(c, trace[..|trace| - 1], s0, trace[|trace| - 2])
  {
    var init := trace[..|trace| - 1];
    forall i | 0 < i < |init| ensures TurnAt(c, init, i) {
      assert TurnAt(c, trace, i);
    }
  }

  lemma {:induction false} TurnsFromFattest(c: Config, trace: seq<State>, s0: State, s: State)
    requires Turns(c, trace, s0, s)
    ensures FromFattest(s0, s) && Thinner(s0, s)
    decreases |trace|
  {
    if |trace| > 1 {
      var n := |trace| - 1;
      assert TurnAt(c, trace, n);
      TurnsBefore(c, trace, s0, s);
      TurnsFromFattest(c, trace[..n], s0, trace[n - 1]);
      ReliefThins(c, s0, trace[n - 1], s);
    }
  }

  lemma TurnsRelieve(c: Config, trace: seq<State>, s0: State, s: State)
    requires Turns(c, trace, s0, s) && !Over(c, s)
    ensures Relieved(c, s0, s)
  {
    RelievedMeans(c, s0, s);
  }

  lemma RelievedFromFattest(c: Config, s0: State, s: State)
    requires Relieved(c, s0, s)
    ensures FromFattest(s0, s) && !Over(c, s)
  {
    RelievedMeans(c, s0, s);
    var trace :| Turns(c, trace, s0, s);
    TurnsFromFattest(c, trace, s0, s);
  }

  /** Nothing is dropped that need not be: without overload nothing changes, and otherwise a limit
      was still exceeded before the last turn, which took at most half of one queue and at most 32
      packets. */
  lemma RelievedBarely(c: Config, s0: State, s: State)
    requires Relieved(c, s0, s)
    ensures !Over(c, s0) ==> s == s0
    ensures Over(c, s0) ==> exists s1 :: OneTurn(c, s1, s) && Thinner(s0, s1)
  {
    RelievedMeans(c, s0, s);
    var trace :| Turns(c, trace, s0, s);
    var n := |trace| - 1;
    if n > 0 {
      assert TurnAt(c, trace, 1) && TurnAt(c, trace, n);
      ReliefMeans(c, trace[0], trace[1]);
      ReliefMeans(c, trace[n - 1], trace[n]);
      TurnsBefore(c, trace, s0, s);
      TurnsFromFattest(c, trace[..n], s0, trace[n - 1]);
    }
  }
}
