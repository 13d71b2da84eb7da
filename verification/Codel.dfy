/** The CoDel drop state machine (include/net/codel_impl.h:104-267) over a FIFO whose
    bytes are the backlog it is given. Time is an unwrapped clock; the source sees it
    modulo 2^32. */
module Codel {
  import opened Common
  import opened CodelArith
  import opened CodelExam

  ghost function Bytes(q: seq<Packet>): nat {
    if q == [] then 0 else Bytes(q[..|q| - 1]) + q[|q| - 1].len
  }

  lemma {:induction false} BytesHead(q: seq<Packet>)
    requires q != []
    ensures Bytes(q) == q[0].len + Bytes(q[1..])
  {
    if |q| > 1 {
      assert q[..|q| - 1][1..] == q[1..][..|q| - 2];
      BytesHead(q[..|q| - 1]);
    } else {
      assert q[..0] == [] && q[1..] == [];
    }
  }

  lemma BytesPush(q: seq<Packet>, p: Packet)
    ensures Bytes(q + [p]) == Bytes(q) + p.len
  {
    assert (q + [p])[..|q|] == q;
  }

  // ----- the pace of drops over runs -----

  /** What every step keeps of the drop counters: the reciprocal root never exceeds the
      true one, and either the counter has not wrapped past its value on entry to the
      dropping state or the reciprocal root is at its floor. */
  ghost predicate Paced(count: U32, lastcount: U32, rec: U16) {
    InvSqrtBound(count, rec) && (lastcount <= count || rec <= 1)
  }

  ghost predicate PacedVars(v: Vars) {
    Paced(v.count, v.lastcount, v.recInvSqrt)
  }

  lemma FloorStays(count: U32, rec: U16)
    requires rec <= 1
    ensures count * (rec * rec) <= TWO32 && NewtonStep(count, rec) <= 1
  {
    assert rec * rec == rec;
    assert count * rec <= count by {
      MulMono(rec, 1, count);
    }
    NewtonStepExact(count, rec);
    var f := (3 * TWO32 - count * (rec * rec)) / 4;
    MulMono(0, count, rec * rec);
    assert f <= 3 * TWO32 / 4;
    assert f * rec <= f by {
      MulMono(rec, 1, f);
    }
  }

  lemma WrapPoint(rec: U16)
    requires InvSqrtBound(TWO32 - 1, rec)
    ensures rec <= 1
  {
    InvSqrtBoundMeans(TWO32 - 1, rec);
    if rec >= 2 {
      Square(2, rec);
      MulMono(4, rec * rec, TWO32 - 1);
    }
  }

  /** Counting one more drop, wrap-around of the counter included. */
  lemma IncrementPaced(count: U32, lastcount: U32, rec: U16)
    requires Paced(count, lastcount, rec)
    ensures var c := Add(count, 1); Paced(c, lastcount, NewtonStep(c, rec))
  {
    var c := Add(count, 1);
    InvSqrtBoundMeans(count, rec);
    if count == TWO32 - 1 {
      WrapPoint(rec);
    }
    if rec <= 1 {
      FloorStays(c, rec);
      NewtonStepExact(c, rec);
    } else {
      assert c == count + 1;
      Square(rec, TWO16 - 1);
      assert c * (rec * rec) == count * (rec * rec) + rec * rec;
      NewtonStepExact(c, rec);
    }
  }

  /** Re-entering the dropping state at the rate it was left at. */
  lemma ResumePaced(count: U32, lastcount: U32, rec: U16)
    requires Paced(count, lastcount, rec) && Sub(count, lastcount) > 1
    ensures var c := Sub(count, lastcount); Paced(c, c, NewtonStep(c, rec))
  {
    var c := Sub(count, lastcount);
    InvSqrtBoundMeans(count, rec);
    if rec <= 1 {
      FloorStays(c, rec);
    } else {
      assert c <= count;
      MulMono(0, rec, rec);
      MulMono(c, count, rec * rec);
    }
    NewtonStepExact(c, rec);
  }

  // ----- the queue -----

  predicate ArrivedBy(queue: seq<Packet>, clock: nat) {
    forall k :: 0 <= k < |queue| ==> queue[k].enqueued <= clock
  }

  ghost predicate Stored(queue: seq<Packet>, backlog: U32, clock: nat) {
    backlog == Bytes(queue) && ArrivedBy(queue, clock)
  }

  lemma StoredPush(queue: seq<Packet>, backlog: U32, clock: nat, p: Packet)
    requires Stored(queue, backlog, clock) && p.enqueued >= clock && backlog + p.len < TWO32
    ensures Stored(queue + [p], backlog + p.len, p.enqueued)
  {
    BytesPush(queue, p);
  }

  function Listed(p: Option<Packet>): seq<Packet> {
    if p.None? then [] else [p.value]
  }

  /** A 32-bit counter after counting the packets, or their bytes, one by one. */
  ghost function CountOn(start: U32, q: seq<Packet>): U32 {
    if q == [] then start else Add(CountOn(start, q[..|q| - 1]), 1)
  }

  ghost function BytesOn(start: U32, q: seq<Packet>): U32 {
    if q == [] then start else Add(BytesOn(start, q[..|q| - 1]), q[|q| - 1].len)
  }

  lemma {:induction false} CountersAreTotals(start: U32, q: seq<Packet>)
    ensures CountOn(start, q) == Wrap(start + |q|)
    ensures BytesOn(start, q) == Wrap(start + Bytes(q))
  {
    if q != [] {
      var r := q[..|q| - 1];
      CountersAreTotals(start, r);
      WrapAdd(start + |r|, 1);
      WrapAdd(start + Bytes(r), q[|q| - 1].len);
    }
  }

  ghost function Packets(drops: seq<DropRecord>): seq<Packet> {
    if drops == [] then [] else Packets(drops[..|drops| - 1]) + [drops[|drops| - 1].packet]
  }

  /** What the drops of one call add to the counters and to the history. */
  ghost predicate Accounted(stats0: Stats, stats: Stats, h0: History, h: History, dropped: seq<Packet>) {
    && stats.dropCount == CountOn(stats0.dropCount, dropped)
    && stats.dropLen == BytesOn(stats0.dropLen, dropped)
    && Packets(h.drops) == Packets(h0.drops) + dropped && h0.log <= h.log
  }

  lemma AccountedOne(stats0: Stats, stats: Stats, h0: History, h: History, p: Packet)
    requires stats.dropCount == Add(stats0.dropCount, 1) && stats.dropLen == Add(stats0.dropLen, p.len)
    requires |h.drops| == |h0.drops| + 1 && h.drops[..|h0.drops|] == h0.drops && h.drops[|h0.drops|].packet == p
    requires h.log == h0.log
    ensures Accounted(stats0, stats, h0, h, [p])
  {
    assert [p][..0] == [];
  }

  lemma {:induction false} OnAppends(start: U32, q: seq<Packet>, r: seq<Packet>)
    ensures CountOn(start, q + r) == CountOn(CountOn(start, q), r)
    ensures BytesOn(start, q + r) == BytesOn(BytesOn(start, q), r)
  {
    if r == [] {
      assert q + r == q;
    } else {
      assert (q + r)[..|q + r| - 1] == q + r[..|r| - 1];
      OnAppends(start, q, r[..|r| - 1]);
    }
  }

  lemma AccountedTwice(stats0: Stats, stats1: Stats, stats2: Stats, h0: History, h1: History, h2: History,
                       q: seq<Packet>, r: seq<Packet>)
    requires Accounted(stats0, stats1, h0, h1, q) && Accounted(stats1, stats2, h1, h2, r)
    ensures Accounted(stats0, stats2, h0, h2, q + r)
  {
    OnAppends(stats0.dropCount, q, r);
    OnAppends(stats0.dropLen, q, r);
  }

  /** More than one drop was made last time and that was less than 16 intervals ago. */
  predicate Resumes(v: Vars, params: Params, now: U32) {
    Sub(v.count, v.lastcount) > 1 && TimeBefore(Sub(now, v.dropNext), Wrap(16 * params.interval))
  }

  /** On an unwrapped clock: `now` is less than 16 intervals after the drop that was due next. */
  lemma ResumesMeans(v: Vars, params: Params, now: nat, next: nat)
    requires v.dropNext == Wrap(next) && 16 * params.interval < TWO32
    requires -TWO31 < now - next - 16 * params.interval < TWO31
    ensures Resumes(v, params, Wrap(now)) <==> Sub(v.count, v.lastcount) > 1 && now - next < 16 * params.interval
  {
    WrapDiff(now, next);
    BeforeMeans(now - next, 16 * params.interval);
  }

  lemma BeforeMeans(e: int, limit: int)
    requires 0 <= limit < TWO32 && -TWO31 < e - limit < TWO31
    ensures TimeBefore(Wrap(e), Wrap(limit)) <==> e < limit
  {
    WrapDiff(limit, e);
    BeforeRange(limit - e);
  }

  lemma BeforeRange(d: int)
    requires -TWO31 < d < TWO31
    ensures 0 < Wrap(d) < TWO31 <==> d > 0
  {
  }

  /** One more drop or mark in the dropping state: the count goes up by one, the reciprocal root
      follows, and the next drop is put off by interval times it, at most interval / sqrt(count). */
  ghost predicate Later(interval: U32, v: Vars, v': Vars) {
    && v'.count == Add(v.count, 1) && Stepped(v'.count, v.recInvSqrt, v'.recInvSqrt)
    && Ruled(v.dropNext, interval, v'.recInvSqrt, v'.dropNext)
    && Scheduled(v.dropNext, v'.dropNext, interval, v'.count)
  }

  /** `n` of them. */
  ghost predicate PutOff(interval: U32, v0: Vars, v: Vars, n: nat)
    decreases n
  {
    if n == 0 then v.count == v0.count && v.recInvSqrt == v0.recInvSqrt && v.dropNext == v0.dropNext
    else exists m :: PutOff(interval, v0, m, n - 1) && Later(interval, m, v)
  }

  /** `n` drops after a fresh start the spacing lies between a quarter of interval / sqrt(count) and
      the whole of it. */
  lemma {:induction false} PutOffFresh(interval: U32, v0: Vars, v: Vars, n: nat)
    requires PutOff(interval, v0, v, n) && v0.count == 1 && v0.recInvSqrt == TWO16 - 1 && n < TWO22
    ensures v.count == n + 1 && v.recInvSqrt == RecAfter(n)
    ensures var d := Spacing(interval, v.recInvSqrt);
            && v.count * (d * d) <= interval * interval
            && interval * interval <= 16 * (v.count * ((d + 1) * (d + 1)))
    decreases n
  {
    if n > 0 {
      var m :| PutOff(interval, v0, m, n - 1) && Later(interval, m, v);
      PutOffFresh(interval, v0, m, n - 1);
      SteppedMeans(v.count, m.recInvSqrt, v.recInvSqrt);
    }
    FreshPace(n);
    SpacingBound(v.count, v.recInvSqrt, interval);
    SpacingFloor(v.count, v.recInvSqrt, interval);
  }

  /** The state is entered afresh, or at the rate it was left at. */
  ghost predicate Entered(params: Params, now: U32, v0: Vars, v: Vars) {
    && (if Resumes(v0, params, now)
        then v.count == Sub(v0.count, v0.lastcount) && Stepped(v.count, v0.recInvSqrt, v.recInvSqrt)
        else v.count == 1 && v.recInvSqrt == TWO16 - 1)
    && v.lastcount == v.count && Ruled(now, params.interval, v.recInvSqrt, v.dropNext)
    && Scheduled(now, v.dropNext, params.interval, v.count)
  }

  /** When the next drop is due if a call leaves the queue in the dropping state, having dropped or
      marked `n` packets in it, or having entered it. */
  ghost predicate NextDrop(params: Params, now: U32, v0: Vars, v: Vars, n: nat) {
    v.dropping ==>
      if v0.dropping then v.lastcount == v0.lastcount && PutOff(params.interval, v0, v, n)
      else Entered(params, now, v0, v)
  }

  lemma NextDropMore(params: Params, now: U32, v0: Vars, v: Vars, v': Vars, n: nat)
    requires NextDrop(params, now, v0, v, n) && v0.dropping && v.dropping
    requires v'.dropping ==> v'.lastcount == v.lastcount && Later(params.interval, v, v')
    ensures NextDrop(params, now, v0, v', n + 1)
  {
  }

  /** An examination alone does not matter for it. */
  lemma {:induction false} PutOffFrom(interval: U32, v0: Vars, v1: Vars, v: Vars, n: nat)
    requires v1 == v0.(firstAboveTime := v1.firstAboveTime, ldelay := v1.ldelay) && PutOff(interval, v1, v, n)
    ensures PutOff(interval, v0, v, n)
    decreases n
  {
    if n > 0 {
      var m :| PutOff(interval, v1, m, n - 1) && Later(interval, m, v);
      PutOffFrom(interval, v0, v1, m, n - 1);
    }
  }

  lemma NextDropFrom(params: Params, now: U32, v0: Vars, v1: Vars, v: Vars, n: nat)
    requires v1 == v0.(firstAboveTime := v1.firstAboveTime, ldelay := v1.ldelay) && NextDrop(params, now, v1, v, n)
    ensures NextDrop(params, now, v0, v, n)
  {
    if v.dropping && v0.dropping {
      PutOffFrom(params.interval, v0, v1, v, n);
    }
  }

  /** What codel_should_drop sees of packet `i` of `q` when those before it are gone. */
  ghost function ExamOf(q: seq<Packet>, i: nat, time: nat): Exam {
    if i < |q| then Seen(time, if q[i].enqueued <= time then time - q[i].enqueued else 0, Wrap(Bytes(q[i + 1..])))
    else Nothing(time)
  }

  ghost predicate IsExamOf(x: Exam, q: seq<Packet>, i: int, time: nat) {
    i >= 0 && x == ExamOf(q, i, time)
  }

  /** `x` is that. (The quantifier keeps it from being unfolded where it is only carried.) */
  ghost predicate Shows(x: Exam, q: seq<Packet>, i: int, time: nat) {
    forall y :: IsExamOf(y, q, i, time) ==> x == y
  }

  lemma ShowsMeans(x: Exam, q: seq<Packet>, i: nat, time: nat)
    ensures Shows(x, q, i, time) <==> x == ExamOf(q, i, time)
  {
    assert IsExamOf(ExamOf(q, i, time), q, i, time);
  }

  /** The packets from `from` on were examined in turn, `n` of them, and nothing else. */
  ghost predicate Examined(h0: History, h: History, q: seq<Packet>, from: nat, n: nat, time: nat) {
    && |h.log| == |h0.log| + n && h.log[..|h0.log|] == h0.log
    && forall k :: |h0.log| <= k < |h.log| ==> Shows(h.log[k], q, from + k - |h0.log|, time)
  }

  lemma ObservedShows(q: seq<Packet>, gone: seq<Packet>, skb: Option<Packet>, queue: seq<Packet>, backlog: U32, time: nat)
    requires q == gone + Listed(skb) + queue && (skb.None? ==> queue == []) && backlog == Bytes(queue)
    requires skb.Some? ==> skb.value.enqueued <= time
    ensures Shows(Observe(skb, backlog, time), q, |gone|, time)
  {
    if skb.Some? {
      assert q[|gone|] == skb.value && q[|gone| + 1..] == queue;
    }
    ShowsMeans(Observe(skb, backlog, time), q, |gone|, time);
  }

  lemma ExaminedMore(h0: History, h: History, h': History, q: seq<Packet>, from: nat, n: nat, x: Exam, time: nat)
    requires Examined(h0, h, q, from, n, time) && h'.log == h.log + [x] && Shows(x, q, from + n, time)
    ensures Examined(h0, h', q, from, n + 1, time)
  {
    assert h'.log[..|h0.log|] == h.log[..|h0.log|];
  }

  lemma ExaminedNone(h: History, q: seq<Packet>, time: nat)
    ensures Examined(h, h, q, 1, 0, time)
  {
    assert h.log[..|h.log|] == h.log;
  }

  /** The second packet is examined once the first has been dropped. */
  lemma ExaminedSecond(h: History, h': History, first: Packet, rest: seq<Packet>, skb: Option<Packet>, queue: seq<Packet>,
                       backlog: U32, time: nat)
    requires Listed(skb) + queue == rest && (skb.None? ==> queue == []) && backlog == Bytes(queue)
    requires skb.Some? ==> skb.value.enqueued <= time
    requires h'.log == h.log + [Observe(skb, backlog, time)]
    ensures Examined(h, h', [first] + rest, 1, 1, time) && [first] + rest == [first] + Listed(skb) + queue
  {
    assert [first] + rest == [first] + Listed(skb) + queue;
    ObservedShows([first] + rest, [first], skb, queue, backlog, time);
    ExaminedNone(h, [first] + rest, time);
    ExaminedMore(h, h, h', [first] + rest, 1, 0, Observe(skb, backlog, time), time);
  }

  lemma ExaminedFirst(h0: History, h1: History, h: History, q: seq<Packet>, x: Exam, n: nat, time: nat)
    requires h1.log == h0.log + [x] && Shows(x, q, 0, time) && Examined(h1, h, q, 1, n, time)
    ensures Examined(h0, h, q, 0, n + 1, time) && h.log[..|h0.log| + 1] == h1.log
  {
    assert h.log[..|h0.log|] == h.log[..|h1.log|][..|h0.log|] == h1.log[..|h0.log|] == h0.log;
    assert h.log[|h0.log|] == h.log[..|h1.log|][|h0.log|] == x;
  }

  /** The packet takes a mark in place of a drop. */
  predicate Markable(params: Params, p: Packet) {
    params.ecn && p.ect
  }

  predicate NoneMarkable(params: Params, q: seq<Packet>) {
    forall k :: 0 <= k < |q| ==> !Markable(params, q[k])
  }

  /** What codel_dequeue does about the packet `first`: `ok` and `ok'` are the answers of
      codel_should_drop for it and for the packet examined last. */
  ghost predicate Acts(params: Params, now: U32, v0: Vars, v: Vars, first: Packet, ok: bool, ok': bool, dropped: seq<Packet>, marked: bool) {
    && (if ok && (!v0.dropping || TimeAfterEq(now, v0.dropNext))
        then if Markable(params, first) then marked && dropped == [] else dropped != [] && dropped[0] == first
        else dropped == [] && !marked)
    && v.dropping == (if v0.dropping then ok' else ok)
    && (!v0.dropping ==> |dropped| <= 1)
    && (v0.dropping && v.dropping && TimeAfterEq(now, v.dropNext) ==> marked)
    && NoneMarkable(params, dropped)
  }

  /** The state of a queue that a call works on, as values. */
  datatype Shot = Shot(v: Vars, stats: Stats, h: History, queue: seq<Packet>)

  /** Where the loop of codel_dequeue is: `dropped` is gone from the front of `all`, `taken` is in
      hand and the rest is queued. */
  ghost predicate Dropping(params: Params, now: U32, all: seq<Packet>, s0: Shot, s: Shot, dropped: seq<Packet>, taken: Option<Packet>) {
    && all == dropped + Listed(taken) + s.queue && (taken.None? ==> s.queue == [])
    && Accounted(s0.stats, s.stats, s0.h, s.h, dropped) && SameMarks(s0.stats, s.stats)
    && NextDrop(params, now, s0.v, s.v, |dropped|) && NoneMarkable(params, dropped)
  }

  /** What a call has done to a queue that held `q`: the packets left it in order, those dropped
      are accounted for, the packets in hand were examined in turn, what the answers demand was done
      and the next drop is scheduled. */
  ghost predicate Outcome(params: Params, time: nat, q: seq<Packet>, s0: Shot, s: Shot, dropped: seq<Packet>,
                          taken: Option<Packet>, marked: bool) {
    && q != [] && q == dropped + Listed(taken) + s.queue && (taken.None? ==> s.queue == [])
    && Accounted(s0.stats, s.stats, s0.h, s.h, dropped)
    && Examined(s0.h, s.h, q, 0, |dropped| + 1, time)
    && Acts(params, Wrap(time), s0.v, s.v, q[0], Ok(params, s.h.log[..|s0.h.log| + 1]), Ok(params, s.h.log), dropped, marked)
    && NextDrop(params, Wrap(time), s0.v, s.v, |dropped| + if marked then 1 else 0)
  }

  /** The same from after the first examination. */
  ghost predicate Reaction(params: Params, time: nat, q: seq<Packet>, s0: Shot, s: Shot, dropped: seq<Packet>,
                           taken: Option<Packet>, marked: bool) {
    && q != [] && q == dropped + Listed(taken) + s.queue && (taken.None? ==> s.queue == [])
    && Accounted(s0.stats, s.stats, s0.h, s.h, dropped)
    && Examined(s0.h, s.h, q, 1, |dropped|, time)
    && Acts(params, Wrap(time), s0.v, s.v, q[0], Ok(params, s0.h.log), Ok(params, s.h.log), dropped, marked)
    && NextDrop(params, Wrap(time), s0.v, s.v, |dropped| + if marked then 1 else 0)
  }

  lemma AccountedAfter(stats0: Stats, stats1: Stats, stats: Stats, h0: History, h1: History, h: History, dropped: seq<Packet>)
    requires Accounted(stats0, stats1, h0, h1, []) && Accounted(stats1, stats, h1, h, dropped)
    ensures Accounted(stats0, stats, h0, h, dropped)
  {
    AccountedTwice(stats0, stats1, stats, h0, h1, h, [], dropped);
    assert [] + dropped == dropped;
  }

  /** An examination after drops adds nothing to them. */
  lemma AccountedBefore(stats0: Stats, stats1: Stats, stats: Stats, h0: History, h1: History, h: History, dropped: seq<Packet>)
    requires Accounted(stats0, stats1, h0, h1, dropped) && h.drops == h1.drops && h1.log <= h.log
    requires stats.dropCount == stats1.dropCount && stats.dropLen == stats1.dropLen
    ensures Accounted(stats0, stats, h0, h, dropped)
  {
  }

  lemma ActsFrom(params: Params, now: U32, v0: Vars, v1: Vars, v: Vars, first: Packet, ok: bool, ok': bool, dropped: seq<Packet>,
                 marked: bool)
    requires v1.dropping == v0.dropping && v1.dropNext == v0.dropNext
    requires Acts(params, now, v1, v, first, ok, ok', dropped, marked)
    ensures Acts(params, now, v0, v, first, ok, ok', dropped, marked)
  {
  }

  lemma ReactionIsOutcome(params: Params, time: nat, q: seq<Packet>, s0: Shot, s1: Shot, s: Shot, x: Exam, dropped: seq<Packet>,
                          taken: Option<Packet>, marked: bool)
    requires Reaction(params, time, q, s1, s, dropped, taken, marked)
    requires Accounted(s0.stats, s1.stats, s0.h, s1.h, []) && s1.h.log == s0.h.log + [x] && Shows(x, q, 0, time)
    requires s1.v == s0.v.(firstAboveTime := s1.v.firstAboveTime, ldelay := s1.v.ldelay)
    ensures Outcome(params, time, q, s0, s, dropped, taken, marked)
  {
    var n: nat := |dropped| + if marked then 1 else 0;
    AccountedAfter(s0.stats, s1.stats, s.stats, s0.h, s1.h, s.h, dropped);
    ExaminedFirst(s0.h, s1.h, s.h, q, x, |dropped|, time);
    NextDropFrom(params, Wrap(time), s0.v, s1.v, s.v, n);
    ActsFrom(params, Wrap(time), s0.v, s1.v, s.v, q[0], Ok(params, s1.h.log), Ok(params, s.h.log), dropped, marked);
  }

  lemma FirstExamined(params: Params, time: nat, q: seq<Packet>, s0: Shot, s: Shot, dropped: seq<Packet>,
                      taken: Option<Packet>, marked: bool)
    requires Outcome(params, time, q, s0, s, dropped, taken, marked)
    ensures s.h.log[..|s0.h.log| + 1] == s0.h.log + [ExamOf(q, 0, time)]
  {
    var n := |s0.h.log|;
    ShowsMeans(s.h.log[n], q, 0, time);
    assert s.h.log[..n + 1] == s.h.log[..n] + [s.h.log[n]];
  }

  /** When the queue has been above target for more than interval, something is done about it: the
      first packet is marked or dropped, unless the next drop is not due yet in the dropping state,
      and the dropping state is entered. */
  lemma PersistentActs(params: Params, time: nat, q: seq<Packet>, s0: Shot, s: Shot, dropped: seq<Packet>,
                       taken: Option<Packet>, marked: bool, a: nat)
    requires Outcome(params, time, q, s0, s, dropped, taken, marked) && InRange(params) && a < |s0.h.log|
    requires var log := s0.h.log + [ExamOf(q, 0, time)];
             && Timely(log) && AboveSince(params, log, a) && !Missed(params, log[a])
             && params.interval < time - log[a].at < params.interval + TWO31
    requires !s0.v.dropping || TimeAfterEq(Wrap(time), s0.v.dropNext)
    ensures if Markable(params, q[0]) then marked && dropped == [] else dropped != [] && dropped[0] == q[0]
    ensures !s0.v.dropping ==> s.v.dropping
  {
    FirstExamined(params, time, q, s0, s, dropped, taken, marked);
    PersistentIsOk(params, s0.h.log + [ExamOf(q, 0, time)], a);
  }

  /** When the first packet is not above target, nothing is done and the dropping state is left. */
  lemma BelowRests(params: Params, time: nat, q: seq<Packet>, s0: Shot, s: Shot, dropped: seq<Packet>,
                   taken: Option<Packet>, marked: bool)
    requires Outcome(params, time, q, s0, s, dropped, taken, marked) && InRange(params)
    requires Timely(s0.h.log + [ExamOf(q, 0, time)]) && !Above(ExamOf(q, 0, time), params)
    ensures dropped == [] && !marked && !s.v.dropping
  {
    FirstExamined(params, time, q, s0, s, dropped, taken, marked);
    BelowIsNotOk(params, s0.h.log + [ExamOf(q, 0, time)]);
    assert s.h.log[..|s.h.log|] == s.h.log;
  }

  /** The marks of ce_threshold do not matter for it. */
  lemma OutcomeStays(params: Params, time: nat, q: seq<Packet>, s0: Shot, s: Shot, s': Shot, dropped: seq<Packet>,
                     taken: Option<Packet>, marked: bool)
    requires Outcome(params, time, q, s0, s, dropped, taken, marked)
    requires s' == s.(stats := s.stats.(ceMark := s'.stats.ceMark))
    ensures Outcome(params, time, q, s0, s', dropped, taken, marked)
  {
  }

  /** One packet dropped or marked on entry to the dropping state. */
  lemma EnteredReacts(params: Params, time: nat, q: seq<Packet>, s0: Shot, s: Shot, dropped: seq<Packet>,
                      taken: Option<Packet>, marked: bool)
    requires q != [] && q == dropped + Listed(taken) + s.queue && (taken.None? ==> s.queue == [])
    requires Accounted(s0.stats, s.stats, s0.h, s.h, dropped) && Examined(s0.h, s.h, q, 1, |dropped|, time)
    requires !s0.v.dropping && s.v.dropping && Ok(params, s0.h.log) && Entered(params, Wrap(time), s0.v, s.v)
    requires marked == Markable(params, q[0]) && dropped == if marked then [] else [q[0]]
    ensures Reaction(params, time, q, s0, s, dropped, taken, marked)
  {
  }

  /** Nothing dropped. */
  lemma IdleReacts(params: Params, time: nat, first: Packet, s: Shot, s': Shot)
    requires !Ok(params, s.h.log) && s' == s.(v := s.v.(dropping := false))
    ensures Reaction(params, time, [first] + s.queue, s, s', [], Some(first), false)
  {
    assert [] + [first] + s.queue == [first] + s.queue;
    assert Accounted(s.stats, s.stats, s.h, s.h, []);
  }

  /** Everything the loop of codel_dequeue keeps. */
  ghost predicate InLoop(params: Params, time: nat, all: seq<Packet>, s0: Shot, s: Shot, dropped: seq<Packet>, taken: Option<Packet>) {
    && Dropping(params, Wrap(time), all, s0, s, dropped, taken) && Examined(s0.h, s.h, all, 1, |dropped|, time)
    && s0.v.dropping && Ok(params, s0.h.log) && all != [] && s.v.dropping == Ok(params, s.h.log)
    && (s.v.dropping ==> taken.Some? && Allowed(params, s.h, taken.value)) && (taken.Some? ==> taken.value.enqueued <= time)
    && (if dropped == [] then s == s0 && taken == Some(all[0]) else TimeAfterEq(Wrap(time), s0.v.dropNext))
  }

  lemma LoopStarts(params: Params, time: nat, s: Shot, first: Packet)
    requires s.v.dropping && Ok(params, s.h.log) && Allowed(params, s.h, first) && first.enqueued <= time
    ensures InLoop(params, time, [first] + s.queue, s, s, [], Some(first))
  {
    DroppingStarts(params, Wrap(time), s, first);
  }

  lemma LoopGoesOn(params: Params, time: nat, all: seq<Packet>, s0: Shot, s: Shot, s': Shot, dropped: seq<Packet>, p: Packet,
                   taken: Option<Packet>, backlog: U32)
    requires InLoop(params, time, all, s0, s, dropped, Some(p)) && s.v.dropping && TimeAfterEq(Wrap(time), s.v.dropNext)
    requires !Markable(params, p) && Listed(taken) + s'.queue == s.queue && (taken.None? ==> s'.queue == [])
    requires Accounted(s.stats, s'.stats, s.h, s'.h, [p]) && SameMarks(s.stats, s'.stats)
    requires s'.v.dropping ==> s'.v.lastcount == s.v.lastcount && Later(params.interval, s.v, s'.v)
    requires backlog == Bytes(s'.queue) && (taken.Some? ==> taken.value.enqueued <= time)
    requires s'.h.log == s.h.log + [Observe(taken, backlog, time)] && s'.v.dropping == Ok(params, s'.h.log)
    requires s'.v.dropping ==> taken.Some? && Allowed(params, s'.h, taken.value)
    ensures InLoop(params, time, all, s0, s', dropped + [p], taken)
  {
    DroppingMore(params, Wrap(time), all, s0, s, s', dropped, p, taken);
    ObservedShows(all, dropped + [p], taken, s'.queue, backlog, time);
    ExaminedMore(s0.h, s.h, s'.h, all, 1, |dropped|, Observe(taken, backlog, time), time);
  }

  /** The loop is left. */
  lemma LoopReacts(params: Params, time: nat, all: seq<Packet>, s0: Shot, s: Shot, s': Shot, dropped: seq<Packet>,
                   taken: Option<Packet>, marked: bool)
    requires InLoop(params, time, all, s0, s, dropped, taken)
    requires if marked
             then && s.v.dropping && TimeAfterEq(Wrap(time), s.v.dropNext) && taken.Some? && Markable(params, taken.value)
                  && s'.v.dropping && s'.v.lastcount == s.v.lastcount && Later(params.interval, s.v, s'.v)
                  && s' == s.(v := s'.v, stats := s.stats.(ecnMark := s'.stats.ecnMark))
             else s' == s && !(s.v.dropping && TimeAfterEq(Wrap(time), s.v.dropNext))
    ensures Reaction(params, time, all, s0, s', dropped, taken, marked)
  {
    if marked {
      NextDropMore(params, Wrap(time), s0.v, s.v, s'.v, |dropped|);
    }
    if dropped != [] {
      assert all[0] == dropped[0];
    }
  }

  lemma DroppingStarts(params: Params, now: U32, s: Shot, first: Packet)
    ensures Dropping(params, now, [first] + s.queue, s, s, [], Some(first))
  {
    assert [] + [first] + s.queue == [first] + s.queue;
  }

  /** One more packet dropped. */
  lemma DroppingMore(params: Params, now: U32, all: seq<Packet>, s0: Shot, s: Shot, s': Shot, dropped: seq<Packet>, p: Packet,
                     taken: Option<Packet>)
    requires Dropping(params, now, all, s0, s, dropped, Some(p)) && s0.v.dropping && s.v.dropping && !Markable(params, p)
    requires Listed(taken) + s'.queue == s.queue && (taken.None? ==> s'.queue == [])
    requires Accounted(s.stats, s'.stats, s.h, s'.h, [p]) && SameMarks(s.stats, s'.stats)
    requires s'.v.dropping ==> s'.v.lastcount == s.v.lastcount && Later(params.interval, s.v, s'.v)
    ensures Dropping(params, now, all, s0, s', dropped + [p], taken)
  {
    AccountedTwice(s0.stats, s.stats, s'.stats, s0.h, s.h, s'.h, dropped, [p]);
    NextDropMore(params, now, s0.v, s.v, s'.v, |dropped|);
    assert dropped + [p] + (Listed(taken) + s'.queue) == (dropped + [p]) + Listed(taken) + s'.queue;
  }

  /** INET_ECN_set_ce on a packet that can carry the mark: both ECN bits of the DS byte are set. */
  function Mark(p: Packet): Packet {
    p.(ce := true, dsfield := if p.dsfield.None? then None else Some(p.dsfield.value | 3))
  }

  function MarkIf(b: bool, p: Option<Packet>): Option<Packet> {
    if b && p.Some? then Some(Mark(p.value)) else p
  }

  predicate SameMarks(stats0: Stats, stats: Stats) {
    stats.ecnMark == stats0.ecnMark && stats.ceMark == stats0.ceMark
  }

  /** At most one packet is marked instead of being dropped, only where that is configured and
      the packet can carry a mark, and it is counted. */
  predicate Marking(params: Params, stats0: Stats, stats: Stats, skb: Option<Packet>, taken: Option<Packet>, marked: bool) {
    && stats.ceMark == stats0.ceMark
    && stats.ecnMark == (if marked then Add(stats0.ecnMark, 1) else stats0.ecnMark)
    && (marked ==> params.ecn && taken.Some? && taken.value.ect)
    && skb == MarkIf(marked, taken)
  }

  /** With a mask set, only packets whose dsfield matches the selector are marked. */
  predicate Selected(params: Params, dsfield: Option<bv8>) {
    params.ceMask != 0 ==> dsfield.Some? && dsfield.value & params.ceMask == params.ceSelector
  }

  /** The delay is above ce_threshold and the packet, as it is by then, is one of those selected
      for that mark. */
  predicate AboveThreshold(params: Params, ldelay: U32, skb: Option<Packet>) {
    skb.Some? && TimeAfter(ldelay, params.ceThreshold) && Selected(params, skb.value.dsfield) && skb.value.ect
  }

  /** A mark sets the two ECN bits and leaves the others. */
  lemma MarkMeans(p: Packet, b: bv8)
    requires p.dsfield == Some(b)
    ensures Mark(p).ce && Mark(p).dsfield.Some? && Mark(p).dsfield.value & 3 == 3 && Mark(p).dsfield.value & 0xfc == b & 0xfc
    ensures Mark(p) == p.(ce := true, dsfield := Mark(p).dsfield)
  {
  }

  /** Selected are all packets without a mask, and with one those whose DS byte agrees with the
      selector in every bit of the mask, the selector having no others. */
  lemma SelectedMeans(params: Params, b: bv8)
    ensures Selected(params, Some(b)) <==>
      params.ceMask == 0 || ((b ^ params.ceSelector) & params.ceMask == 0 && params.ceSelector | params.ceMask == params.ceMask)
    ensures Selected(params, None) <==> params.ceMask == 0
  {
    BitsAgree(b, params.ceSelector, params.ceMask);
  }

  lemma BitsAgree(b: bv8, selector: bv8, mask: bv8)
    ensures b & mask == selector <==> (b ^ selector) & mask == 0 && selector | mask == mask
  {
  }

  /** What becomes of the packet in hand: at most one mark instead of a drop, then the one of
      ce_threshold, each of them counted. */
  predicate Stamped(params: Params, stats0: Stats, stats: Stats, ldelay: U32, taken: Option<Packet>, marked: bool, skb: Option<Packet>) {
    && (marked ==> params.ecn && taken.Some? && taken.value.ect)
    && var reacted := MarkIf(marked, taken);
       var above := AboveThreshold(params, ldelay, reacted);
       && skb == MarkIf(above, reacted)
       && stats.ecnMark == (if marked then Add(stats0.ecnMark, 1) else stats0.ecnMark)
       && stats.ceMark == (if above then Add(stats0.ceMark, 1) else stats0.ceMark)
  }

  lemma ThenStamped(params: Params, stats0: Stats, stats1: Stats, stats: Stats, ldelay: U32, reacted: Option<Packet>,
                    taken: Option<Packet>, marked: bool, skb: Option<Packet>)
    requires Marking(params, stats0, stats1, reacted, taken, marked)
    requires var above := AboveThreshold(params, ldelay, reacted);
             && skb == MarkIf(above, reacted)
             && stats == if above then stats1.(ceMark := Add(stats1.ceMark, 1)) else stats1
    ensures Stamped(params, stats0, stats, ldelay, taken, marked, skb)
  {
  }

  lemma NothingStamped(params: Params, stats: Stats, ldelay: U32)
    ensures Stamped(params, stats, stats, ldelay, None, false, None)
  {
  }

  /** A mark can take a packet out of the selection: what codel_dequeue looks at in the end is
      the DS byte with the mark. */
  lemma MarkCanDeselect(params: Params, p: Packet, ldelay: U32)
    requires p.ect && p.dsfield == Some(1) && params.ceMask == 3 && params.ceSelector == 1
    requires TimeAfter(ldelay, params.ceThreshold)
    ensures AboveThreshold(params, ldelay, Some(p)) && !AboveThreshold(params, ldelay, Some(Mark(p)))
  {
    assert 1 & 3 == 1 as bv8 && (1 | 3) & 3 == 3 as bv8;
  }

  class Queue {
    const params: Params
    var vars: Vars
    var stats: Stats

    // what dequeue_func takes packets from, and the backlog kept of it
    var queue: seq<Packet>
    var backlog: U32

    ghost var hist: History
    ghost var clock: nat

    ghost predicate Valid()
      reads this
    {
      && PacedVars(vars)
      && Stored(queue, backlog, clock)
      && Watched(params, hist, vars.firstAboveTime) && hist.examined <= clock
    }

    /** codel_vars_init and codel_stats_init. */
    constructor (params: Params)
      ensures Valid() && this.params == params && queue == [] && clock == 0
      ensures hist.log == [] && hist.drops == [] && !vars.dropping
    {
      TrackedMeans(params, [], 0);
      this.params := params;
      vars, stats := Vars(0, 0, false, 0, 0, 0, 0), Stats(0, 0, 0, 0, 0);
      queue, backlog := [], 0;
      hist, clock := History([], [], 0, 0), 0;
    }

    method Enqueue(p: Packet)
      requires Valid() && p.enqueued >= clock && backlog + p.len < TWO32
      modifies this`queue, this`backlog, this`clock
      ensures Valid() && queue == old(queue) + [p] && clock == p.enqueued
    {
      StoredPush(queue, backlog, clock, p);
      queue, backlog, clock := queue + [p], backlog + p.len, p.enqueued;
    }

    /** dequeue_func. */
    method Take() returns (skb: Option<Packet>)
      requires Stored(queue, backlog, clock)
      modifies this`queue, this`backlog
      ensures Stored(queue, backlog, clock)
      ensures Listed(skb) + queue == old(queue) && (skb.None? ==> queue == [])
      ensures skb.Some? ==> skb.value.enqueued <= clock
    {
      if queue == [] {
        return None;
      }
      BytesHead(queue);
      skb := Some(queue[0]);
      queue, backlog := queue[1..], backlog - queue[0].len;
    }

    /** codel_should_drop. */
    method ShouldDrop(skb: Option<Packet>, now: U32, ghost time: nat) returns (ok: bool)
      requires Watched(params, hist, vars.firstAboveTime) && hist.examined <= time && now == Wrap(time)
      requires skb.Some? ==> skb.value.enqueued <= time
      modifies this`vars, this`stats, this`hist
      ensures var below := Below(params, skb, backlog, time);
              && ok == OkToDrop(old(vars.firstAboveTime), below, time)
              && vars == old(vars).(firstAboveTime := NextWindow(params, old(vars.firstAboveTime), below, time),
                                    ldelay := if skb.None? then old(vars.ldelay) else Wrap(time - skb.value.enqueued))
      ensures stats == if skb.Some? && skb.value.len > old(stats.maxpacket)
                       then old(stats).(maxpacket := skb.value.len) else old(stats)
      ensures hist == Record(old(hist), Observe(skb, backlog, time), old(vars.firstAboveTime)) && ok == Ok(params, hist.log)
      ensures Watched(params, hist, vars.firstAboveTime) && (ok ==> skb.Some? && Allowed(params, hist, skb.value))
    {
      ExamStep(params, hist, vars.firstAboveTime, skb, backlog, time);
      hist := Record(hist, Observe(skb, backlog, time), vars.firstAboveTime);
      if skb.None? {
        vars := vars.(firstAboveTime := 0);
        return false;
      }
      var ldelay := Sub(now, Wrap(skb.value.enqueued));
      WrapDiff(time, skb.value.enqueued);
      vars := vars.(ldelay := ldelay);
      if skb.value.len > stats.maxpacket {
        stats := stats.(maxpacket := skb.value.len);
      }
      if TimeBefore(ldelay, params.target) || backlog <= params.mtu {
        vars := vars.(firstAboveTime := 0);
        return false;
      }
      ok := false;
      if vars.firstAboveTime == 0 {
        vars := vars.(firstAboveTime := Add(now, params.interval));
        WrapAdd(time, params.interval);
      } else if TimeAfter(now, vars.firstAboveTime) {
        ok := true;
      }
    }

    /** drop_func with its counters. */
    method Drop(p: Packet)
      requires Watched(params, hist, vars.firstAboveTime) && Allowed(params, hist, p)
      modifies this`stats, this`hist
      ensures Watched(params, hist, vars.firstAboveTime) && hist.examined == old(hist.examined)
      ensures Accounted(old(stats), stats, old(hist), hist, [p]) && SameMarks(old(stats), stats)
      ensures hist.log == old(hist).log
    {
      stats := stats.(dropLen := Add(stats.dropLen, p.len), dropCount := Add(stats.dropCount, 1));
      hist := hist.(drops := hist.drops + [DropRecord(p, hist.since, |hist.log| - 1)]);
      AccountedOne(old(stats), stats, old(hist), hist, p);
    }

    /** A drop, then the next packet and its examination. */
    method DropAndTake(p: Packet, now: U32, ghost time: nat) returns (skb: Option<Packet>, again: bool)
      requires Valid() && Allowed(params, hist, p) && time == clock && now == Wrap(time)
      modifies this`queue, this`backlog, this`vars, this`stats, this`hist
      ensures Valid()
      ensures Listed(skb) + queue == old(queue) && (skb.None? ==> queue == [])
      ensures skb.Some? ==> skb.value.enqueued <= time
      ensures Accounted(old(stats), stats, old(hist), hist, [p]) && SameMarks(old(stats), stats)
      ensures vars == old(vars).(firstAboveTime := vars.firstAboveTime, ldelay := vars.ldelay)
      ensures again ==> skb.Some? && Allowed(params, hist, skb.value)
      ensures again == Ok(params, hist.log) && hist.log == old(hist).log + [Observe(skb, backlog, time)]
    {
      Drop(p);
      ghost var stats1, hist1 := stats, hist;
      skb := Take();
      again := ShouldDrop(skb, now, time);
      AccountedBefore(old(stats), stats1, stats, old(hist), hist1, hist, [p]);
    }

    /** The next drop is counted and the reciprocal root follows. */
    method CountDrop()
      requires PacedVars(vars)
      modifies this`vars
      ensures PacedVars(vars)
      ensures vars == old(vars).(count := Add(old(vars.count), 1), recInvSqrt := vars.recInvSqrt)
      ensures Stepped(vars.count, old(vars.recInvSqrt), vars.recInvSqrt)
    {
      SteppedMeans(Add(vars.count, 1), vars.recInvSqrt, NewtonStep(Add(vars.count, 1), vars.recInvSqrt));
      IncrementPaced(vars.count, vars.lastcount, vars.recInvSqrt);
      vars := vars.(count := Add(vars.count, 1));
      vars := vars.(recInvSqrt := NewtonStep(vars.count, vars.recInvSqrt));
    }

    /** One drop in the dropping state, which ends the state or schedules the next drop. */
    method DropScheduled(p: Packet, now: U32, ghost time: nat) returns (skb: Option<Packet>)
      requires Valid() && Allowed(params, hist, p) && time == clock && now == Wrap(time) && vars.dropping
      modifies this`queue, this`backlog, this`vars, this`stats, this`hist
      ensures Valid()
      ensures Listed(skb) + queue == old(queue) && (skb.None? ==> queue == [])
      ensures skb.Some? ==> skb.value.enqueued <= time
      ensures Accounted(old(stats), stats, old(hist), hist, [p]) && SameMarks(old(stats), stats)
      ensures hist.log == old(hist).log + [Observe(skb, backlog, time)] && vars.dropping == Ok(params, hist.log)
      ensures vars.dropping ==> skb.Some? && Allowed(params, hist, skb.value)
      ensures vars.dropping ==> vars.lastcount == old(vars.lastcount) && Later(params.interval, old(vars), vars)
    {
      CountDrop();
      var again;
      skb, again := DropAndTake(p, now, time);
      if again {
        ControlLawSchedules(vars.dropNext, params.interval, vars.count, vars.recInvSqrt);
        vars := vars.(dropNext := ControlLaw(vars.dropNext, params.interval, vars.recInvSqrt));
      } else {
        vars := vars.(dropping := false);
      }
    }

    /** A mark in its place. */
    method MarkScheduled(p: Packet) returns (skb: Packet)
      requires PacedVars(vars)
      modifies this`vars, this`stats
      ensures PacedVars(vars) && skb == Mark(p) && stats == old(stats).(ecnMark := Add(old(stats.ecnMark), 1))
      ensures vars == old(vars).(count := vars.count, recInvSqrt := vars.recInvSqrt, dropNext := vars.dropNext)
      ensures Later(params.interval, old(vars), vars)
    {
      CountDrop();
      skb := Mark(p);
      stats := stats.(ecnMark := Add(stats.ecnMark, 1));
      ControlLawSchedules(vars.dropNext, params.interval, vars.count, vars.recInvSqrt);
      vars := vars.(dropNext := ControlLaw(vars.dropNext, params.interval, vars.recInvSqrt));
    }

    /** The same, seen from the loop. */
    method DropInLoop(p: Packet, now: U32, ghost time: nat, ghost all: seq<Packet>, ghost s0: Shot, ghost dropped: seq<Packet>)
      returns (skb: Option<Packet>)
      requires Valid() && time == clock && now == Wrap(time) && vars.dropping && TimeAfterEq(now, vars.dropNext)
      requires InLoop(params, time, all, s0, Shot(vars, stats, hist, queue), dropped, Some(p)) && !Markable(params, p)
      modifies this`queue, this`backlog, this`vars, this`stats, this`hist
      ensures Valid() && |Listed(skb)| + |queue| == |old(queue)|
      ensures InLoop(params, time, all, s0, Shot(vars, stats, hist, queue), dropped + [p], skb)
    {
      ghost var s := Shot(vars, stats, hist, queue);
      skb := DropScheduled(p, now, time);
      LoopGoesOn(params, time, all, s0, s, Shot(vars, stats, hist, queue), dropped, p, skb, backlog);
    }

    /** The loop at codel_impl.h:180-212: drop while the next drop is due. */
    method DropWhileDue(first: Packet, now: U32, ghost time: nat)
      returns (skb: Option<Packet>, ghost taken: Option<Packet>, ghost dropped: seq<Packet>, ghost marked: bool)
      requires Valid() && Allowed(params, hist, first) && time == clock && now == Wrap(time) && first.enqueued <= time
      requires vars.dropping && Ok(params, hist.log)
      modifies this`queue, this`backlog, this`vars, this`stats, this`hist
      ensures Valid() && Marking(params, old(stats), stats, skb, taken, marked)
      ensures Reaction(params, time, [first] + old(queue), Shot(old(vars), old(stats), old(hist), old(queue)),
                       Shot(vars, stats, hist, queue), dropped, taken, marked)
    {
      skb, taken, dropped, marked := Some(first), Some(first), [], false;
      ghost var s0, all := Shot(vars, stats, hist, queue), [first] + queue;
      LoopStarts(params, time, s0, first);
      while vars.dropping && TimeAfterEq(now, vars.dropNext)
        invariant Valid() && !marked && skb == taken && SameMarks(s0.stats, stats)
        invariant InLoop(params, time, all, s0, Shot(vars, stats, hist, queue), dropped, taken)
        decreases |queue| + |Listed(taken)|
      {
        ghost var s := Shot(vars, stats, hist, queue);
        if params.ecn && skb.value.ect {
          var p := MarkScheduled(skb.value);
          skb, marked := Some(p), true;
          LoopReacts(params, time, all, s0, s, Shot(vars, stats, hist, queue), dropped, taken, marked);
          return;
        }
        ghost var p := skb.value;
        skb := DropInLoop(skb.value, now, time, all, s0, dropped);
        taken, dropped := skb, dropped + [p];
      }
      ghost var s := Shot(vars, stats, hist, queue);
      LoopReacts(params, time, all, s0, s, s, dropped, taken, marked);
    }

    /** A fresh start, or the rate the dropping state was last left at when that was less
        than 16 intervals ago (codel_impl.h:229-250). */
    method EnterDropping(now: U32)
      requires PacedVars(vars)
      modifies this`vars
      ensures PacedVars(vars) && vars.dropping && Entered(params, now, old(vars), vars)
      ensures vars.firstAboveTime == old(vars.firstAboveTime) && vars.ldelay == old(vars.ldelay)
    {
      var delta := Sub(vars.count, vars.lastcount);
      if Resumes(vars, params, now) {
        ResumePaced(vars.count, vars.lastcount, vars.recInvSqrt);
        SteppedMeans(delta, vars.recInvSqrt, NewtonStep(delta, vars.recInvSqrt));
        vars := vars.(count := delta, recInvSqrt := NewtonStep(delta, vars.recInvSqrt));
      } else {
        InvSqrtBoundMeans(1, TWO16 - 1);
        vars := vars.(count := 1, recInvSqrt := TWO16 - 1);
      }
      ControlLawSchedules(now, params.interval, vars.count, vars.recInvSqrt);
      vars := vars.(dropping := true, lastcount := vars.count,
                    dropNext := ControlLaw(now, params.interval, vars.recInvSqrt));
    }

    /** Outside the dropping state: mark one packet, or drop it and take the next. */
    method MarkOrDrop(first: Packet, now: U32, ghost time: nat)
      returns (skb: Option<Packet>, ghost taken: Option<Packet>, ghost dropped: seq<Packet>, ghost marked: bool)
      requires Valid() && Allowed(params, hist, first) && time == clock && now == Wrap(time) && first.enqueued <= time
      modifies this`queue, this`backlog, this`vars, this`stats, this`hist
      ensures Valid()
      ensures [first] + old(queue) == dropped + Listed(taken) + queue
      ensures Marking(params, old(stats), stats, skb, taken, marked) && (taken.None? ==> queue == [])
      ensures Accounted(old(stats), stats, old(hist), hist, dropped)
      ensures dropped == (if Markable(params, first) then [] else [first]) && marked == Markable(params, first)
      ensures Examined(old(hist), hist, [first] + old(queue), 1, |dropped|, time)
      ensures vars == old(vars).(firstAboveTime := vars.firstAboveTime, ldelay := vars.ldelay)
    {
      skb, taken, dropped, marked := Some(first), Some(first), [], false;
      if params.ecn && first.ect {
        skb, marked := Some(Mark(first)), true;
        stats := stats.(ecnMark := Add(stats.ecnMark, 1));
        ExaminedNone(hist, [first] + queue, time);
      } else {
        var again;
        skb, again := DropAndTake(first, now, time);
        taken, dropped := skb, [first];
        ExaminedSecond(old(hist), hist, first, old(queue), skb, queue, backlog, time);
      }
    }

    /** The marking of packets above ce_threshold (codel_impl.h:253-265). */
    method MarkAboveThreshold(skb: Option<Packet>) returns (out: Option<Packet>)
      modifies this`stats
      ensures var above := AboveThreshold(params, vars.ldelay, skb);
              && out == MarkIf(above, skb)
              && stats == (if above then old(stats).(ceMark := Add(old(stats.ceMark), 1)) else old(stats))
    {
      out := skb;
      if skb.Some? && TimeAfter(vars.ldelay, params.ceThreshold) {
        var setCe := Selected(params, skb.value.dsfield);
        if setCe && skb.value.ect {
          out := Some(Mark(skb.value));
          stats := stats.(ceMark := Add(stats.ceMark, 1));
        }
      }
    }

    /** The three-way decision at codel_impl.h:167-251. */
    method React(first: Packet, drop: bool, now: U32, ghost time: nat)
      returns (skb: Option<Packet>, ghost taken: Option<Packet>, ghost dropped: seq<Packet>, ghost marked: bool)
      requires Valid() && time == clock && now == Wrap(time) && first.enqueued <= time
      requires drop == Ok(params, hist.log) && (drop ==> Allowed(params, hist, first))
      modifies this`queue, this`backlog, this`vars, this`stats, this`hist
      ensures Valid() && Marking(params, old(stats), stats, skb, taken, marked)
      ensures Reaction(params, time, [first] + old(queue), Shot(old(vars), old(stats), old(hist), old(queue)),
                       Shot(vars, stats, hist, queue), dropped, taken, marked)
    {
      skb, taken, dropped, marked := Some(first), Some(first), [], false;
      ghost var s0, all := Shot(vars, stats, hist, queue), [first] + queue;
      if vars.dropping && drop {
        skb, taken, dropped, marked := DropWhileDue(first, now, time);
      } else if vars.dropping {
        vars := vars.(dropping := false);
        IdleReacts(params, time, first, s0, Shot(vars, stats, hist, queue));
      } else if drop {
        skb, taken, dropped, marked := MarkOrDrop(first, now, time);
        EnterDropping(now);
        EnteredReacts(params, time, all, s0, Shot(vars, stats, hist, queue), dropped, taken, marked);
      } else {
        IdleReacts(params, time, first, s0, s0);
      }
    }

    /** The examination of a packet. */
    method Judge(first: Packet, now: U32, ghost time: nat) returns (drop: bool, ghost x: Exam)
      requires Valid() && time == clock && now == Wrap(time) && first.enqueued <= time
      modifies this`vars, this`stats, this`hist
      ensures Valid() && (drop ==> Allowed(params, hist, first))
      ensures drop == Ok(params, hist.log) && hist.log == old(hist).log + [x] && Shows(x, [first] + queue, 0, time)
      ensures Accounted(old(stats), stats, old(hist), hist, []) && SameMarks(old(stats), stats)
      ensures vars == old(vars).(firstAboveTime := vars.firstAboveTime, ldelay := vars.ldelay)
    {
      drop := ShouldDrop(Some(first), now, time);
      x := Observe(Some(first), backlog, time);
      assert [first] + queue == [] + Listed(Some(first)) + queue;
      ObservedShows([first] + queue, [], Some(first), queue, backlog, time);
    }

    /** The packet at the head is examined, and what follows from that. */
    method Examine(first: Packet, now: U32, ghost time: nat)
      returns (skb: Option<Packet>, ghost taken: Option<Packet>, ghost dropped: seq<Packet>, ghost marked: bool)
      requires Valid() && time == clock && now == Wrap(time) && first.enqueued <= time
      modifies this`queue, this`backlog, this`vars, this`stats, this`hist
      ensures Valid() && Marking(params, old(stats), stats, skb, taken, marked)
      ensures Outcome(params, time, [first] + old(queue), Shot(old(vars), old(stats), old(hist), old(queue)),
                      Shot(vars, stats, hist, queue), dropped, taken, marked)
    {
      ghost var s0 := Shot(vars, stats, hist, queue);
      var drop;
      ghost var x;
      drop, x := Judge(first, now, time);
      ghost var s1 := Shot(vars, stats, hist, queue);
      skb, taken, dropped, marked := React(first, drop, now, time);
      ReactionIsOutcome(params, time, [first] + old(queue), s0, s1, Shot(vars, stats, hist, queue), x, dropped, taken, marked);
    }

    /** Everything codel_dequeue does with the packet it has taken. */
    method Process(first: Packet, now: U32, ghost time: nat)
      returns (skb: Option<Packet>, ghost taken: Option<Packet>, ghost dropped: seq<Packet>, ghost marked: bool)
      requires Valid() && time == clock && now == Wrap(time) && first.enqueued <= time
      modifies this`queue, this`backlog, this`vars, this`stats, this`hist
      ensures Valid() && Stamped(params, old(stats), stats, vars.ldelay, taken, marked, skb)
      ensures Outcome(params, time, [first] + old(queue), Shot(old(vars), old(stats), old(hist), old(queue)),
                      Shot(vars, stats, hist, queue), dropped, taken, marked)
    {
      ghost var s0, q := Shot(vars, stats, hist, queue), [first] + queue;
      skb, taken, dropped, marked := Examine(first, now, time);
      ghost var reacted, s1 := skb, Shot(vars, stats, hist, queue);
      skb := MarkAboveThreshold(skb);
      ThenStamped(params, s0.stats, s1.stats, stats, vars.ldelay, reacted, taken, marked, skb);
      OutcomeStays(params, time, q, s0, s1, Shot(vars, stats, hist, queue), dropped, taken, marked);
    }

    /** codel_dequeue. */
    method Dequeue(now: U32, ghost time: nat)
      returns (skb: Option<Packet>, ghost taken: Option<Packet>, ghost dropped: seq<Packet>, ghost marked: bool)
      requires Valid() && time >= clock && now == Wrap(time)
      modifies this
      ensures Valid() && clock == time
      ensures Stamped(params, old(stats), stats, vars.ldelay, taken, marked, skb)
      ensures if old(queue) == []
              then taken.None? && dropped == [] && !marked && queue == [] && hist == old(hist) && vars == old(vars).(dropping := false)
              else Outcome(params, time, old(queue), Shot(old(vars), old(stats), old(hist), old(queue)[1..]),
                           Shot(vars, stats, hist, queue), dropped, taken, marked)
    {
      clock := time;
      assert Stored(queue, backlog, clock);
      skb := Take();
      taken, dropped, marked := skb, [], false;
      if skb.None? {
        vars := vars.(dropping := false);
        NothingStamped(params, stats, vars.ldelay);
        return;
      }
      assert old(queue) == [skb.value] + queue;
      skb, taken, dropped, marked := Process(skb.value, now, time);
    }
  }
}
