/** What codel_should_drop (include/net/codel_impl.h:104-144) decides over a sequence of
    examinations. Time is an unwrapped clock; the source sees it modulo 2^32. */
module CodelExam {
  import opened Common
  import opened CodelArith

  /** `enqueued` is the unwrapped time of arrival; `ect` says whether the packet can carry
      a congestion mark and `ce` whether it does; `dsfield` is the DS byte of its header, if
      it has one. */
  datatype Packet = Packet(len: U32, enqueued: nat, ect: bool, ce: bool, dsfield: Option<bv8>)

  datatype Params = Params(target: U32, ceThreshold: U32, interval: U32, mtu: U32, ecn: bool,
                           ceSelector: bv8, ceMask: bv8)

  /** struct codel_vars. */
  datatype Vars = Vars(count: U32, lastcount: U32, dropping: bool, recInvSqrt: U16,
                       firstAboveTime: U32, dropNext: U32, ldelay: U32)

  /** struct codel_stats. */
  datatype Stats = Stats(maxpacket: U32, dropCount: U32, dropLen: U32, ecnMark: U32, ceMark: U32)

  // ----- examinations -----

  /** One call of codel_should_drop, at `at`: either no packet was there, or one with this
      sojourn time while this much was still queued. */
  datatype Exam = Nothing(at: nat) | Seen(at: nat, sojourn: nat, backlog: U32)

  predicate Above(x: Exam, params: Params) {
    x.Seen? && x.sojourn >= params.target && x.backlog > params.mtu
  }

  /** The parameters are in the range of the signed comparisons. */
  predicate InRange(params: Params) {
    params.interval <= TWO31 && params.target < TWO31
  }

  /** Every examination from `start` to `end` found the queue above target. */
  predicate AllAbove(log: seq<Exam>, start: nat, end: nat, params: Params) {
    start <= end < |log| && forall k :: start <= k <= end ==> Above(log[k], params)
  }

  /** A drop of `packet`, decided by examination `end`, with `start` as its justification. */
  datatype DropRecord = DropRecord(packet: Packet, start: nat, end: nat)

  /** `end` examined that packet, and from `start` to `end` more than interval passed with
      every examined packet above target. */
  predicate Justified(log: seq<Exam>, d: DropRecord, params: Params) {
    && AllAbove(log, d.start, d.end, params)
    && log[d.end].at - log[d.start].at > params.interval
    && log[d.end].sojourn == log[d.end].at - d.packet.enqueued
  }

  /** Every examination and every drop so far, the examination that opened the current
      window, and the time of the latest examination. */
  datatype History = History(log: seq<Exam>, drops: seq<DropRecord>, since: nat, examined: nat)

  predicate SeenBy(log: seq<Exam>, examined: nat) {
    forall k :: 0 <= k < |log| ==> log[k].at <= examined
  }

  /** A non-zero first_above_time is the end of a window, opened by examination `since`, in
      which everything was above target. */
  predicate WindowHolds(params: Params, h: History, firstAboveTime: U32) {
    firstAboveTime != 0 ==>
      h.log != [] && AllAbove(h.log, h.since, |h.log| - 1, params) &&
      firstAboveTime == Wrap(h.log[h.since].at + params.interval)
  }

  predicate AllJustified(params: Params, log: seq<Exam>, drops: seq<DropRecord>) {
    forall k :: 0 <= k < |drops| ==> Justified(log, drops[k], params)
  }

  ghost predicate Watched(params: Params, h: History, firstAboveTime: U32) {
    Tracked(params, h.log, firstAboveTime) && Witnessed(params, h, firstAboveTime)
  }

  predicate Witnessed(params: Params, h: History, firstAboveTime: U32) {
    SeenBy(h.log, h.examined) &&
    (InRange(params) ==> WindowHolds(params, h, firstAboveTime) && AllJustified(params, h.log, h.drops))
  }

  /** The latest examination allows `p` to be dropped. */
  predicate Allowed(params: Params, h: History, p: Packet) {
    h.log != [] && (InRange(params) ==> Justified(h.log, DropRecord(p, h.since, |h.log| - 1), params))
  }

  // ----- codel_should_drop -----

  /** The source's own test for being above target. */
  predicate Judged(x: Exam, params: Params) {
    x.Seen? && !TimeBefore(Wrap(x.sojourn), params.target) && x.backlog > params.mtu
  }

  /** first_above_time after these examinations. */
  ghost function Fat(params: Params, log: seq<Exam>): U32 {
    if log == [] then 0
    else
      var x := log[|log| - 1];
      NextWindow(params, Fat(params, log[..|log| - 1]), !Judged(x, params), x.at)
  }

  /** The answer at the last of them. */
  ghost predicate Answer(params: Params, log: seq<Exam>) {
    log != [] && OkToDrop(Fat(params, log[..|log| - 1]), !Judged(log[|log| - 1], params), log[|log| - 1].at)
  }

  // The quantifiers keep both from being unfolded where they are only carried.

  ghost predicate IsLog(l: seq<Exam>, log: seq<Exam>) {
    l == log
  }

  ghost predicate Ok(params: Params, log: seq<Exam>) {
    forall l :: IsLog(l, log) ==> Answer(params, l)
  }

  ghost predicate Tracked(params: Params, log: seq<Exam>, firstAboveTime: U32) {
    forall l :: IsLog(l, log) ==> firstAboveTime == Fat(params, l)
  }

  lemma OkMeans(params: Params, log: seq<Exam>)
    ensures Ok(params, log) <==> Answer(params, log)
  {
    assert IsLog(log, log);
  }

  lemma TrackedMeans(params: Params, log: seq<Exam>, firstAboveTime: U32)
    ensures Tracked(params, log, firstAboveTime) <==> firstAboveTime == Fat(params, log)
  {
    assert IsLog(log, log);
  }

  function Observe(skb: Option<Packet>, backlog: U32, now: nat): Exam
    requires skb.Some? ==> skb.value.enqueued <= now
  {
    if skb.None? then Nothing(now) else Seen(now, now - skb.value.enqueued, backlog)
  }

  /** No packet, a sojourn time below target, or no more than one MTU queued. */
  predicate Below(params: Params, skb: Option<Packet>, backlog: U32, now: nat)
    requires skb.Some? ==> skb.value.enqueued <= now
  {
    skb.None? || TimeBefore(Wrap(now - skb.value.enqueued), params.target) || backlog <= params.mtu
  }

  function NextWindow(params: Params, firstAboveTime: U32, below: bool, now: nat): U32 {
    if below then 0 else if firstAboveTime == 0 then Wrap(now + params.interval) else firstAboveTime
  }

  predicate OkToDrop(firstAboveTime: U32, below: bool, now: nat) {
    !below && firstAboveTime != 0 && TimeAfter(Wrap(now), firstAboveTime)
  }

  /** The history after an examination. */
  ghost function Record(h: History, x: Exam, firstAboveTime: U32): History {
    History(h.log + [x], h.drops, if firstAboveTime == 0 then |h.log| else h.since, x.at)
  }

  lemma Recorded(params: Params, log: seq<Exam>, drops: seq<DropRecord>, x: Exam)
    requires AllJustified(params, log, drops)
    ensures AllJustified(params, log + [x], drops)
  {
    forall k | 0 <= k < |drops| ensures Justified(log + [x], drops[k], params) {
      assert Justified(log, drops[k], params);
    }
  }

  /** Examination `x` found the queue above target while a window was open. */
  lemma WindowGoesOn(params: Params, h: History, firstAboveTime: U32, x: Exam, p: Packet)
    requires WindowHolds(params, h, firstAboveTime) && firstAboveTime != 0 && Above(x, params)
    requires InRange(params) && SeenBy(h.log, h.examined) && h.examined <= x.at
    requires x.sojourn == x.at - p.enqueued
    ensures WindowHolds(params, Record(h, x, firstAboveTime), firstAboveTime)
    ensures TimeAfter(Wrap(x.at), firstAboveTime) ==> Allowed(params, Record(h, x, firstAboveTime), p)
  {
    if TimeAfter(Wrap(x.at), firstAboveTime) {
      assert WindowOver(params.interval, h.log[h.since].at, x.at);
      WindowOverMeansLonger(params.interval, h.log[h.since].at, x.at);
    }
  }

  lemma TrackedStep(params: Params, log: seq<Exam>, firstAboveTime: U32, x: Exam)
    requires Tracked(params, log, firstAboveTime)
    ensures Tracked(params, log + [x], NextWindow(params, firstAboveTime, !Judged(x, params), x.at))
    ensures Ok(params, log + [x]) <==> OkToDrop(firstAboveTime, !Judged(x, params), x.at)
  {
    assert (log + [x])[..|log|] == log;
    TrackedMeans(params, log, firstAboveTime);
    TrackedMeans(params, log + [x], NextWindow(params, firstAboveTime, !Judged(x, params), x.at));
    OkMeans(params, log + [x]);
  }

  lemma ExamJustifies(params: Params, h: History, firstAboveTime: U32, skb: Option<Packet>, backlog: U32, now: nat)
    requires skb.Some? ==> skb.value.enqueued <= now
    requires Witnessed(params, h, firstAboveTime) && h.examined <= now
    ensures var h' := Record(h, Observe(skb, backlog, now), firstAboveTime);
            var below := Below(params, skb, backlog, now);
            && Witnessed(params, h', NextWindow(params, firstAboveTime, below, now))
            && (OkToDrop(firstAboveTime, below, now) ==> Allowed(params, h', skb.value))
  {
    if InRange(params) {
      var x := Observe(skb, backlog, now);
      Recorded(params, h.log, h.drops, x);
      if !Below(params, skb, backlog, now) {
        NotBeforeMeansAtLeast(now - skb.value.enqueued, params.target);
        assert Above(x, params);
        if firstAboveTime != 0 {
          WindowGoesOn(params, h, firstAboveTime, x, skb.value);
        }
      }
    }
  }

  /** codel_should_drop answers yes only at the end of a long enough stretch, and keeps the
      window and the drops recorded so far justified. */
  lemma ExamStep(params: Params, h: History, firstAboveTime: U32, skb: Option<Packet>, backlog: U32, now: nat)
    requires skb.Some? ==> skb.value.enqueued <= now
    requires Watched(params, h, firstAboveTime) && h.examined <= now
    ensures var h' := Record(h, Observe(skb, backlog, now), firstAboveTime);
            var below := Below(params, skb, backlog, now);
            && Watched(params, h', NextWindow(params, firstAboveTime, below, now))
            && (OkToDrop(firstAboveTime, below, now) ==> Allowed(params, h', skb.value))
            && (OkToDrop(firstAboveTime, below, now) <==> Ok(params, h'.log))
  {
    TrackedStep(params, h.log, firstAboveTime, Observe(skb, backlog, now));
    ExamJustifies(params, h, firstAboveTime, skb, backlog, now);
  }

  // ----- the answers as a function of what was examined -----

  /** Sojourn times are in the range of the signed comparison. */
  predicate Timely(log: seq<Exam>) {
    forall k :: 0 <= k < |log| && log[k].Seen? ==> log[k].sojourn < TWO31
  }

  lemma JudgedMeans(x: Exam, params: Params)
    requires InRange(params) && (x.Seen? ==> x.sojourn < TWO31)
    ensures Judged(x, params) <==> Above(x, params)
  {
    if x.Seen? {
      WrapDiff(params.target, x.sojourn);
      assert Wrap(x.sojourn) == x.sojourn;
      if x.sojourn >= params.target {
        assert params.target - x.sojourn > -TWO31;
      }
    }
  }

  /** From `a` on everything has been above target, and before that something was not. */
  predicate AboveSince(params: Params, log: seq<Exam>, a: nat) {
    log != [] && AllAbove(log, a, |log| - 1, params) && (a == 0 || !Above(log[a - 1], params))
  }

  /** The window that such a stretch opens at this examination would end at the value that stands
      for no window. */
  predicate Missed(params: Params, x: Exam) {
    Wrap(x.at + params.interval) == 0
  }

  /** The stretch since `a` opened a window at `j`, the first examination at which that does not
      happen. */
  predicate Opened(params: Params, log: seq<Exam>, a: nat, j: nat) {
    && AboveSince(params, log, a) && a <= j < |log| && !Missed(params, log[j])
    && forall k :: a <= k < j ==> Missed(params, log[k])
  }

  /** No window is open: the last examination was not above target, or every one since the stretch
      began has missed. */
  ghost predicate Shut(params: Params, log: seq<Exam>) {
    log == [] || !Above(log[|log| - 1], params) ||
    exists a: nat :: AboveSince(params, log, a) && forall k :: a <= k < |log| ==> Missed(params, log[k])
  }

  ghost predicate Open(params: Params, log: seq<Exam>, fat: U32) {
    exists a: nat, j: nat :: Opened(params, log, a, j) && fat == Wrap(log[j].at + params.interval)
  }

  lemma ShutOpens(params: Params, log: seq<Exam>, x: Exam)
    requires Shut(params, log) && Above(x, params)
    ensures if Missed(params, x) then Shut(params, log + [x]) else Open(params, log + [x], Wrap(x.at + params.interval))
  {
    var more, n := log + [x], |log|;
    var a: nat := n;
    if log != [] && Above(log[n - 1], params) {
      a :| AboveSince(params, log, a) && forall k :: a <= k < n ==> Missed(params, log[k]);
    }
    assert AboveSince(params, more, a);
    if !Missed(params, x) {
      assert Opened(params, more, a, n);
    }
  }

  lemma OpenStays(params: Params, log: seq<Exam>, x: Exam, fat: U32)
    requires Open(params, log, fat) && Above(x, params)
    ensures Open(params, log + [x], fat)
  {
    var a: nat, j: nat :| Opened(params, log, a, j) && fat == Wrap(log[j].at + params.interval);
    assert Opened(params, log + [x], a, j);
  }

  /** What first_above_time says about a log. */
  ghost predicate Tells(params: Params, log: seq<Exam>, fat: U32) {
    if fat == 0 then Shut(params, log) else Open(params, log, fat)
  }

  lemma TellsMore(params: Params, log: seq<Exam>, x: Exam, fat: U32)
    requires Tells(params, log, fat)
    ensures Tells(params, log + [x], NextWindow(params, fat, !Above(x, params), x.at))
  {
    if Above(x, params) {
      if fat == 0 {
        ShutOpens(params, log, x);
      } else {
        OpenStays(params, log, x, fat);
      }
    }
  }

  lemma {:induction false} FatMeans(params: Params, log: seq<Exam>)
    requires InRange(params) && Timely(log)
    ensures Tells(params, log, Fat(params, log))
  {
    if log != [] {
      var init, x := log[..|log| - 1], log[|log| - 1];
      FatMeans(params, init);
      JudgedMeans(x, params);
      assert log == init + [x];
      TellsMore(params, init, x, Fat(params, init));
    }
  }

  lemma SinceUnique(params: Params, log: seq<Exam>, a: nat, b: nat)
    requires AboveSince(params, log, a) && AboveSince(params, log, b)
    ensures a == b
  {
  }

  lemma OpenIsNotShut(params: Params, log: seq<Exam>, a: nat, j: nat)
    requires Opened(params, log, a, j)
    ensures !Shut(params, log)
  {
    forall b: nat | AboveSince(params, log, b) ensures !Missed(params, log[j]) && b <= j < |log| {
      SinceUnique(params, log, a, b);
    }
  }

  lemma OpenUnique(params: Params, log: seq<Exam>, a: nat, j: nat, b: nat, i: nat)
    requires Opened(params, log, a, j) && Opened(params, log, b, i)
    ensures a == b && i == j
  {
    SinceUnique(params, log, a, b);
  }

  /** A stretch above target, a window opened in it, and an examination that finds the queue still
      above target when the window has been over for less than 2^31, as the clock is read. */
  ghost predicate Overdue(params: Params, log: seq<Exam>) {
    log != [] &&
    var init, x := log[..|log| - 1], log[|log| - 1];
    Above(x, params) &&
    exists a: nat, j: nat :: Opened(params, init, a, j) && 0 < Wrap(x.at - init[j].at - params.interval) < TWO31
  }

  /** Without a window nothing is overdue, and with one it is its end that counts. */
  lemma OverdueMeans(params: Params, log: seq<Exam>)
    requires InRange(params) && Timely(log) && log != []
    ensures var init, x := log[..|log| - 1], log[|log| - 1];
            var fat := Fat(params, init);
            Overdue(params, log) <==> Above(x, params) && fat != 0 && TimeAfter(Wrap(x.at), fat)
  {
    var init, x := log[..|log| - 1], log[|log| - 1];
    FatMeans(params, init);
    var fat := Fat(params, init);
    if fat == 0 {
      assert forall a: nat, j: nat :: !Opened(params, init, a, j) by {
        forall a: nat, j: nat ensures !Opened(params, init, a, j) {
          if Opened(params, init, a, j) {
            OpenIsNotShut(params, init, a, j);
          }
        }
      }
    } else {
      var a: nat, j: nat :| Opened(params, init, a, j) && fat == Wrap(init[j].at + params.interval);
      WrapDiff(x.at, init[j].at + params.interval);
      forall b: nat, i: nat | Opened(params, init, b, i) ensures b == a && i == j {
        OpenUnique(params, init, a, j, b, i);
      }
    }
  }

  /** codel_should_drop answers yes exactly then. */
  lemma OkIff(params: Params, log: seq<Exam>)
    requires InRange(params) && Timely(log)
    ensures Ok(params, log) <==> Overdue(params, log)
  {
    OkMeans(params, log);
    if log != [] {
      OverdueMeans(params, log);
      JudgedMeans(log[|log| - 1], params);
    }
  }

  /** Everything since `a` was above target, the first examination of that stretch opened a window,
      and more than interval has passed since then: then the answer is yes. */
  lemma PersistentIsOk(params: Params, log: seq<Exam>, a: nat)
    requires InRange(params) && Timely(log) && AboveSince(params, log, a) && a < |log| - 1 && !Missed(params, log[a])
    requires params.interval < log[|log| - 1].at - log[a].at < params.interval + TWO31
    ensures Ok(params, log)
  {
    var init := log[..|log| - 1];
    assert Opened(params, init, a, a);
    OkIff(params, log);
  }

  /** Not above target: the answer is no. */
  lemma BelowIsNotOk(params: Params, log: seq<Exam>)
    requires InRange(params) && Timely(log) && log != [] && !Above(log[|log| - 1], params)
    ensures !Ok(params, log)
  {
    OkIff(params, log);
  }

  /** A window that would end at a multiple of 2^32 is taken for none: more than interval has passed
      above target and the answer is no. */
  lemma MissedWindow(params: Params)
    requires params.interval == 1 && params.target == 0 && params.mtu == 0
    ensures var log := [Seen(TWO32 - 1, 0, 1), Seen(TWO32 + 1, 0, 1)];
            AboveSince(params, log, 0) && Missed(params, log[0]) && log[1].at - log[0].at > params.interval && !Ok(params, log)
  {
    var x, y := Seen(TWO32 - 1, 0, 1), Seen(TWO32 + 1, 0, 1);
    var log := [x, y];
    assert Wrap(TWO32 - 1 + 1) == 0;
    assert log[..1] == [x] && [x][..0] == [];
    assert Fat(params, [x]) == 0;
    OkMeans(params, log);
  }
}
