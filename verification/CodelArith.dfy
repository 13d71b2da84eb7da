/** Fixed-point arithmetic and wrapping time of CoDel (include/net/codel.h and
    include/net/codel_impl.h:74-102). */
module CodelArith {
  const TWO16 := 0x1_0000
  const TWO31 := 0x8000_0000
  const TWO32 := 0x1_0000_0000
  const TWO64 := 0x1_0000_0000_0000_0000

  type U16 = x: int | 0 <= x < TWO16
  type U32 = x: int | 0 <= x < TWO32

  /** Reduction modulo 2^32. */
  function Wrap(x: int): U32
    decreases x < 0, if x < 0 then -x else x
  {
    if x < 0 then Wrap(x + TWO32) else if x >= TWO32 then Wrap(x - TWO32) else x
  }

  /** Addition and subtraction of 32-bit values. */
  function Add(a: U32, b: U32): U32 {
    if a + b < TWO32 then a + b else a + b - TWO32
  }

  function Sub(a: U32, b: U32): U32 {
    if a >= b then a - b else a - b + TWO32
  }

  // ----- wrapping time (codel.h:76-86) -----

  /** (s32)(a - b) > 0. */
  predicate TimeAfter(a: U32, b: U32) {
    0 < Sub(a, b) < TWO31
  }

  predicate TimeAfterEq(a: U32, b: U32) {
    Sub(a, b) < TWO31
  }

  predicate TimeBefore(a: U32, b: U32) {
    TimeAfter(b, a)
  }

  lemma {:induction false} WrapShift(x: int, k: int)
    ensures Wrap(x + TWO32 * k) == Wrap(x)
    decreases if k < 0 then -k else k
  {
    if k > 0 {
      WrapShift(x, k - 1);
      WrapOnce(x + TWO32 * (k - 1));
    } else if k < 0 {
      WrapShift(x, k + 1);
      WrapOnce(x + TWO32 * k);
    }
  }

  lemma WrapOnce(x: int)
    ensures Wrap(x + TWO32) == Wrap(x)
  {
  }

  lemma {:induction false} WrapIsShift(x: int) returns (k: int)
    ensures x == Wrap(x) + TWO32 * k
    decreases x < 0, if x < 0 then -x else x
  {
    if x < 0 {
      k := WrapIsShift(x + TWO32);
      k := k - 1;
    } else if x >= TWO32 {
      k := WrapIsShift(x - TWO32);
      k := k + 1;
    } else {
      k := 0;
    }
  }

  lemma WrapAdd(a: int, b: U32)
    ensures Add(Wrap(a), b) == Wrap(a + b)
  {
    var k := WrapIsShift(a);
    WrapShift(Wrap(a) + b, k);
  }

  lemma WrapDiff(a: int, b: int)
    ensures Sub(Wrap(a), Wrap(b)) == Wrap(a - b)
  {
    var j := WrapIsShift(a);
    var k := WrapIsShift(b);
    WrapShift(Wrap(a) - Wrap(b), j - k);
  }

  /** The test of codel_should_drop for a window opened at `start`. */
  predicate WindowOver(interval: U32, start: nat, now: nat) {
    TimeAfter(Wrap(now), Wrap(start + interval))
  }

  lemma WindowOverMeansLonger(interval: U32, start: nat, now: nat)
    requires interval <= TWO31 && start <= now && WindowOver(interval, start, now)
    ensures now - start > interval
  {
    WrapDiff(now, start + interval);
    var d := now - start - interval;
    assert d <= 0 ==> Wrap(d) == if d == 0 then 0 else TWO32 + d;
  }

  /** Seen on an unwrapped clock, "now is after start + interval" means that more than
      interval has passed, for every start and now, exactly when interval is at most 2^31. */
  lemma WindowExact(interval: U32)
    ensures (forall start: nat, now: nat :: start <= now && WindowOver(interval, start, now) ==> now - start > interval)
            <==> interval <= TWO31
  {
    if interval <= TWO31 {
      forall start: nat, now: nat | start <= now && WindowOver(interval, start, now)
        ensures now - start > interval
      {
        WindowOverMeansLonger(interval, start, now);
      }
    } else {
      WrapDiff(0, interval);
      assert WindowOver(interval, 0, 0);
    }
  }

  /** A sojourn time that is not below target when wrapped is not below target unwrapped,
      provided target is in the range of the signed comparison. */
  lemma NotBeforeMeansAtLeast(sojourn: nat, target: U32)
    requires target < TWO31 && !TimeBefore(Wrap(sojourn), target)
    ensures sojourn >= target
  {
    WrapDiff(target, sojourn);
    assert sojourn < target ==> Wrap(target - sojourn) == target - sojourn;
  }

  /** The comparison of the sojourn time with target means what it is for, for every sojourn
      time, exactly when target is below 2^31. */
  lemma TargetExact(target: U32)
    ensures (forall sojourn: nat :: !TimeBefore(Wrap(sojourn), target) ==> sojourn >= target) <==> target < TWO31
  {
    if target < TWO31 {
      forall sojourn: nat | !TimeBefore(Wrap(sojourn), target) ensures sojourn >= target {
        NotBeforeMeansAtLeast(sojourn, target);
      }
    } else {
      assert !TimeBefore(Wrap(0), target);
    }
  }

  // ----- the Newton step -----

  /** codel_Newton_step on the two fields it reads, with every intermediate value cut to
      the width the source gives it. */
  function NewtonStep(count: U32, rec: U16): U16 {
    var invsqrt := rec * TWO16 % TWO32;
    var invsqrt2 := invsqrt * invsqrt / TWO32 % TWO32;
    var val := (3 * TWO32 - count * invsqrt2) % TWO64;
    var val' := (val / 4 * invsqrt) % TWO64 / TWO31;
    val' / TWO16 % TWO16
  }

  ghost predicate IsProduct(p: int, count: int, rec: int) {
    p == count * (rec * rec)
  }

  /** The invariant of the pair, count rec^2 <= 2^32: rec / 2^16 never exceeds
      1 / sqrt(count). (Stated through IsProduct so that the product stays out of proofs
      that only carry the invariant along.) */
  ghost predicate InvSqrtBound(count: int, rec: int) {
    forall p :: IsProduct(p, count, rec) ==> p <= TWO32
  }

  lemma InvSqrtBoundMeans(count: int, rec: int)
    ensures InvSqrtBound(count, rec) <==> count * (rec * rec) <= TWO32
  {
    assert IsProduct(count * (rec * rec), count, rec);
  }

  lemma MulMono(a: int, b: int, c: int)
    requires a <= b && c >= 0
    ensures a * c <= b * c
  {
  }

  /** (2a + b)^2 (a - b) written out; with a = r and b = r - x this is x (3r - x)^2. */
  lemma Expand(a: int, b: int)
    ensures (a - b) * ((2 * a + b) * (2 * a + b)) == 4 * (a * (a * a)) - (3 * a + b) * (b * b)
  {
    var aa, ab, bb := a * a, a * b, b * b;
    assert (2 * a + b) * (2 * a + b) == 4 * aa + 4 * ab + bb;
    assert (a - b) * (4 * aa + 4 * ab + bb) ==
           4 * (a * aa) + 4 * (a * ab) + a * bb - 4 * (b * aa) - 4 * (b * ab) - b * bb;
    assert a * ab == b * aa && a * bb == b * ab;
    assert (3 * a + b) * bb == 3 * (a * bb) + b * bb;
  }

  /** x (3 - x)^2 <= 4 for 0 <= x <= 4, scaled by r: the difference is (4 - x)(1 - x)^2. */
  lemma Cubic(x: int, r: int)
    requires 0 <= x <= 4 * r
    ensures x * ((3 * r - x) * (3 * r - x)) <= 4 * (r * (r * r))
  {
    var b := r - x;
    Expand(r, b);
    assert b * b >= 0;
    MulMono(0, 3 * r + b, b * b);
  }

  lemma Square(a: int, b: int)
    requires 0 <= a <= b
    ensures a * a <= b * b
  {
    MulMono(a, b, a);
    MulMono(a, b, b);
  }

  lemma SquareOfProduct(a: int, b: int)
    ensures (a * b) * (a * b) == (a * a) * (b * b)
  {
  }

  lemma MulAssoc(a: int, b: int, c: int)
    ensures (a * b) * c == a * (b * c)
  {
  }

  lemma CancelFactor(a: int, b: int, w: int)
    requires w > 0 && a * w <= b * w
    ensures a <= b
  {
    if b < a {
      MulMono(b + 1, a, w);
    }
  }

  /** A step that rounds rec (3R - X) / 2R down keeps count * rec^2 <= R. */
  lemma StepKeepsBound(c: int, r: int, q: int, s: int, R: int)
    requires c >= 0 && r >= 0 && q >= 0 && R > 0 && s >= 0
    requires s == 3 * R - c * (r * r)
    requires q * (2 * R) <= r * s
    ensures c * (q * q) <= R
  {
    var x, p, t, w := c * (r * r), q * (2 * R), r * s, (2 * R) * (2 * R);
    MulMono(0, q, 2 * R);
    Square(p, t);
    SquareOfProduct(q, 2 * R);
    SquareOfProduct(r, s);
    MulMono((q * q) * w, (r * r) * (s * s), c);
    MulAssoc(c, q * q, w);
    MulAssoc(c, r * r, s * s);
    MulMono(0, r, r);
    MulMono(0, c, r * r);
    Cubic(x, R);
    assert 4 * (R * (R * R)) == R * w by {
      MulAssoc(2, R, 2 * R);
    }
    MulMono(1, 2 * R, 2 * R);
    CancelFactor(c * (q * q), R, w);
  }

  // ----- the step itself -----

  /** Without any cut: floor(floor((3R - X) / 4) rec / 2^31) with R = 2^32, X = count rec^2. */
  function ExactStep(count: U32, rec: U16): int {
    (3 * TWO32 - count * (rec * rec)) / 4 * rec / TWO31
  }

  /** The rounded step lies in (rec (3R - X) / 2R - 2, rec (3R - X) / 2R]. */
  lemma ExactStepRounds(count: U32, rec: U16)
    requires count * (rec * rec) <= 3 * TWO32
    ensures 0 <= ExactStep(count, rec)
    ensures ExactStep(count, rec) * (2 * TWO32) <= rec * (3 * TWO32 - count * (rec * rec))
    ensures rec * (3 * TWO32 - count * (rec * rec)) < (ExactStep(count, rec) + 2) * (2 * TWO32)
  {
    var s := 3 * TWO32 - count * (rec * rec);
    var f := s / 4;
    assert 4 * f <= s <= 4 * f + 3;
    MulMono(4 * f, s, rec);
    MulMono(s, 4 * f + 3, rec);
    assert 4 * f * rec == 4 * (f * rec) by { MulAssoc(4, f, rec); }
    assert (4 * f + 3) * rec == 4 * (f * rec) + 3 * rec;
    MulMono(0, f, rec);
    assert ExactStep(count, rec) == f * rec / TWO31;
  }

  lemma Spread(k: int, a: int, b: int, c: int)
    ensures k * (a + b + c) == k * a + k * b + k * c
  {
  }

  lemma SquareOfSum(r: int, d: int)
    ensures (r + d) * (r + d) == r * r + 2 * (r * d) + d * d
  {
  }

  /** 2 (r + d)^3 - r (3 (r + d)^2 - r^2) = (3 r + 2 d) d^2, by the six products. */
  lemma CubicGap(r: int, d: int, rr: int, rd: int, dd: int)
    requires rr == r * r && rd == r * d && dd == d * d
    ensures 2 * ((r + d) * (rr + 2 * rd + dd)) - r * (2 * rr + 6 * rd + 3 * dd) == 3 * (r * dd) + 2 * (d * dd)
  {
    Spread(r, rr, 2 * rd, dd);
    Spread(d, rr, 2 * rd, dd);
    Spread(r, 2 * rr, 6 * rd, 3 * dd);
    MulAssoc(r, r, d);
    MulAssoc(r, d, d);
    assert d * rr == r * rd && d * rd == r * dd;
  }

  /** r (3 n^2 - r^2) < 2 n^3 for r below n. */
  lemma CubicStrict(r: int, n: int)
    requires 0 <= r < n
    ensures r * (3 * (n * n) - r * r) < n * (2 * (n * n))
  {
    var d := n - r;
    var rr, rd, dd := r * r, r * d, d * d;
    SquareOfSum(r, d);
    CubicGap(r, d, rr, rd, dd);
    MulMono(1, d, d);
    MulMono(0, r, dd);
    MulMono(1, d, dd);
  }

  lemma ExactStepFits(count: U32, rec: U16)
    requires InvSqrtBound(count, ExactStep(count, rec)) && count * (rec * rec) <= 2 * TWO32
    requires count >= 1 || rec <= 1
    ensures ExactStep(count, rec) < TWO16
  {
    var q := ExactStep(count, rec);
    InvSqrtBoundMeans(count, q);
    ExactStepRounds(count, rec);
    if count == 1 {
      CubicStrict(rec, TWO16);
      if q >= TWO16 {
        MulMono(TWO16, q, 2 * TWO32);
      }
    } else if count >= 2 && q >= TWO16 {
      Square(TWO16, q);
      MulMono(2, count, q * q);
    }
  }

  lemma ExactStepBound(count: U32, rec: U16)
    requires count * (rec * rec) <= 2 * TWO32
    ensures InvSqrtBound(count, ExactStep(count, rec))
  {
    ExactStepRounds(count, rec);
    StepKeepsBound(count, rec, ExactStep(count, rec), 3 * TWO32 - count * (rec * rec), TWO32);
    InvSqrtBoundMeans(count, ExactStep(count, rec));
  }

  lemma SmallMod(x: int, m: int)
    requires 0 <= x < m
    ensures x % m == x
  {
  }

  lemma ShiftedSquare(rec: U16)
    ensures rec * TWO16 < TWO32 && rec * rec < TWO32
    ensures (rec * TWO16) * (rec * TWO16) / TWO32 == rec * rec
  {
    MulMono(rec, TWO16 - 1, TWO16);
    SquareOfProduct(rec, TWO16);
    Square(rec, TWO16 - 1);
  }

  lemma DropShift(f: int, rec: int)
    ensures f * (rec * TWO16) / TWO31 / TWO16 == f * rec / TWO31
  {
    MulAssoc(f, rec, TWO16);
    var p := f * rec;
    var k, m := p / TWO31, p % TWO31;
    assert p == k * TWO31 + m;
    assert p * TWO16 == (k * TWO16) * TWO31 + m * TWO16;
    var j := m * TWO16 / TWO31;
    assert 0 <= j < TWO16;
    assert p * TWO16 / TWO31 == k * TWO16 + j;
  }

  /** In the states CoDel reaches no intermediate value of the step is cut: the first
      subtraction does not go below zero and the result fits its 16 bits. */
  lemma NewtonStepExact(count: U32, rec: U16)
    requires count * (rec * rec) <= 2 * TWO32 && (count >= 1 || rec <= 1)
    ensures NewtonStep(count, rec) == ExactStep(count, rec) && InvSqrtBound(count, ExactStep(count, rec))
  {
    var s := 3 * TWO32 - count * (rec * rec);
    ShiftedSquare(rec);
    SmallMod(rec * TWO16, TWO32);
    SmallMod(rec * rec, TWO32);
    MulMono(0, rec, rec);
    MulMono(0, count, rec * rec);
    SmallMod(s, TWO64);
    MulMono(0, s / 4, rec * TWO16);
    MulMono(s / 4, 3 * TWO32 / 4, rec * TWO16);
    assert s / 4 * (rec * TWO16) < TWO64;
    SmallMod(s / 4 * (rec * TWO16), TWO64);
    DropShift(s / 4, rec);
    ExactStepBound(count, rec);
    ExactStepFits(count, rec);
    ExactStepRounds(count, rec);
    SmallMod(ExactStep(count, rec), TWO16);
  }

  // ----- the control law -----

  /** reciprocal_scale(interval, rec << 16). */
  function Spacing(interval: U32, rec: U16): U32 {
    MulMono(0, interval, rec * TWO16);
    MulMono(rec * TWO16, TWO32, interval);
    interval * (rec * TWO16) / TWO32
  }

  /** codel_control_law. */
  function ControlLaw(t: U32, interval: U32, rec: U16): U32 {
    Add(t, Spacing(interval, rec))
  }

  /** The next drop is never scheduled later than interval / sqrt(count). */
  lemma SpacingBound(count: U32, rec: U16, interval: U32)
    requires InvSqrtBound(count, rec)
    ensures 0 <= Spacing(interval, rec)
    ensures count * (Spacing(interval, rec) * Spacing(interval, rec)) <= interval * interval
  {
    var d := Spacing(interval, rec);
    InvSqrtBoundMeans(count, rec);
    MulMono(0, interval, rec * TWO16);
    MulAssoc(interval, rec, TWO16);
    var p := interval * rec;
    assert d * TWO16 <= p;
    Square(d * TWO16, p);
    SquareOfProduct(d, TWO16);
    SquareOfProduct(interval, rec);
    MulMono((d * d) * TWO32, (interval * interval) * (rec * rec), count);
    MulAssoc(count, d * d, TWO32);
    Rotate(count, interval * interval, rec * rec);
    MulMono(0, interval, interval);
    MulMono(count * (rec * rec), TWO32, interval * interval);
    CancelFactor(count * (d * d), interval * interval, TWO32);
  }

  /** `next` lies at most interval / sqrt(count) after `base`. */
  ghost predicate Scheduled(base: U32, next: U32, interval: U32, count: U32) {
    exists d: U32 :: next == Add(base, d) && SpacingAtMost(d, interval, count)
  }

  /** count d^2 <= interval^2. */
  ghost predicate SpacingAtMost(d: U32, interval: U32, count: U32) {
    forall p, q :: IsProduct(p, count, d) && IsProduct(q, 1, interval) ==> p <= q
  }

  lemma ControlLawSchedules(t: U32, interval: U32, count: U32, rec: U16)
    requires InvSqrtBound(count, rec)
    ensures Scheduled(t, ControlLaw(t, interval, rec), interval, count)
    ensures Ruled(t, interval, rec, ControlLaw(t, interval, rec))
  {
    RuledMeans(t, interval, rec, ControlLaw(t, interval, rec));
    SpacingBound(count, rec, interval);
    assert SpacingAtMost(Spacing(interval, rec), interval, count);
  }

  lemma Rotate(a: int, b: int, c: int)
    ensures (b * c) * a == (a * c) * b
  {
  }

  // ----- the two as relations, so that their arithmetic stays out of proofs that carry them -----

  ghost predicate IsStep(r: U16, count: U32, rec: U16) {
    r == NewtonStep(count, rec)
  }

  /** `rec'` is the reciprocal root after a step for `count`. */
  ghost predicate Stepped(count: U32, rec: U16, rec': U16) {
    forall r :: IsStep(r, count, rec) ==> r == rec'
  }

  lemma SteppedMeans(count: U32, rec: U16, rec': U16)
    ensures Stepped(count, rec, rec') <==> rec' == NewtonStep(count, rec)
  {
    assert IsStep(NewtonStep(count, rec), count, rec);
  }

  ghost predicate IsLaw(u: U32, t: U32, interval: U32, rec: U16) {
    u == ControlLaw(t, interval, rec)
  }

  /** `next` is what codel_control_law gives for `t`. */
  ghost predicate Ruled(t: U32, interval: U32, rec: U16, next: U32) {
    forall u :: IsLaw(u, t, interval, rec) ==> u == next
  }

  lemma RuledMeans(t: U32, interval: U32, rec: U16, next: U32)
    ensures Ruled(t, interval, rec, next) <==> next == ControlLaw(t, interval, rec)
  {
    assert IsLaw(ControlLaw(t, interval, rec), t, interval, rec);
  }

  // ----- not too early -----

  const TWO22 := 0x40_0000

  /** 16 count rec^2 >= 2^32: rec / 2^16 is at least a quarter of 1 / sqrt(count). */
  ghost predicate InvSqrtFloor(count: int, rec: int) {
    forall p :: IsProduct(p, count, rec) ==> 16 * p >= TWO32
  }

  lemma InvSqrtFloorMeans(count: int, rec: int)
    ensures InvSqrtFloor(count, rec) <==> 16 * (count * (rec * rec)) >= TWO32
  {
    assert IsProduct(count * (rec * rec), count, rec);
  }

  lemma NotTooSmallRec(c: int, r: int)
    requires 0 < c <= TWO22 && r >= 0 && InvSqrtFloor(c, r)
    ensures r >= 8
  {
    InvSqrtFloorMeans(c, r);
    if r <= 7 {
      Square(r, 7);
      MulMono(0, r, r);
      MulMono(r * r, 49, c);
    }
  }

  /** A share of at least k R / 4 gives at least k r / 8, rounding aside. */
  lemma ShareOf(r: int, s: int, q: int, R: int, k: int)
    requires r >= 0 && R > 0 && k * R <= 4 * s && r * s < (q + 2) * (2 * R)
    ensures k * r < 8 * (q + 2)
  {
    MulMono(k * R, 4 * s, r);
    assert (k * R) * r == (k * r) * R by {
      MulAssoc(k, R, r);
      MulAssoc(k, r, R);
    }
    assert (4 * s) * r == 4 * (r * s) by {
      MulAssoc(4, s, r);
    }
    assert 4 * ((q + 2) * (2 * R)) == (8 * (q + 2)) * R by {
      MulAssoc(4, q + 2, 2 * R);
      MulAssoc(8, q + 2, R);
    }
    BelowFactor(k * r, 8 * (q + 2), R);
  }

  lemma Compared(c: int, rr: int, qq: int, k: int)
    requires c >= 0 && rr <= k * qq
    ensures c * rr <= k * (c * qq)
  {
    MulMono(rr, k * qq, c);
    MulAssoc(k, qq, c);
  }

  lemma SquaredTwice(r: int, q: int, k: int)
    requires 0 <= r <= k * q
    ensures r * r <= (k * k) * (q * q)
  {
    Square(r, k * q);
    SquareOfProduct(k, q);
  }

  /** A step that rounds r (3R - X) / 2R down, with X = c r^2 between R / 16 and 2R. */
  lemma StepKeepsFloor(c: int, r: int, q: int, x: int, y: int, R: int)
    requires c >= 0 && r >= 8 && q >= 0 && R > 0 && x == c * (r * r) && y == c * (q * q)
    requires R <= 16 * x && x <= 2 * R && r * (3 * R - x) < (q + 2) * (2 * R)
    ensures 16 * y >= R
  {
    var k := if x > R then 4 else if 4 * x >= R then 2 else 1;
    ShareOf(r, 3 * R - x, q, R, if k == 4 then 4 else if k == 2 then 8 else 11);
    assert r <= k * q;
    SquaredTwice(r, q, k);
    Compared(c, r * r, q * q, k * k);
  }

  lemma BelowFactor(a: int, b: int, w: int)
    requires w > 0 && a * w < b * w
    ensures a < b
  {
    if b <= a {
      MulMono(b, a, w);
    }
  }

  /** The reciprocal root after `n` further drops in a dropping state that was entered afresh. */
  ghost function RecAfter(n: nat): U16 {
    if n == 0 then TWO16 - 1 else NewtonStep(Wrap(n + 1), RecAfter(n - 1))
  }

  /** The bounds of the reciprocal root from both sides, up to four million drops in a row. */
  lemma {:induction false} FreshPace(n: nat)
    requires n < TWO22
    ensures InvSqrtBound(n + 1, RecAfter(n)) && InvSqrtFloor(n + 1, RecAfter(n))
  {
    if n == 0 {
      InvSqrtBoundMeans(1, TWO16 - 1);
      InvSqrtFloorMeans(1, TWO16 - 1);
    } else {
      FreshPace(n - 1);
      FloorStep(n, RecAfter(n - 1));
    }
  }

  lemma FloorStep(n: nat, r: U16)
    requires 1 <= n < TWO22 && InvSqrtBound(n, r) && InvSqrtFloor(n, r)
    ensures InvSqrtBound(n + 1, NewtonStep(n + 1, r)) && InvSqrtFloor(n + 1, NewtonStep(n + 1, r))
  {
    var c, x := n + 1, (n + 1) * (r * r);
    OneMore(n, r);
    NotTooSmallRec(c, r);
    InvSqrtFloorMeans(c, r);
    NewtonStepExact(c, r);
    ExactStepRounds(c, r);
    var q := ExactStep(c, r);
    StepKeepsFloor(c, r, q, x, c * (q * q), TWO32);
    InvSqrtFloorMeans(c, q);
  }

  lemma OneMore(n: nat, r: U16)
    requires n >= 1 && InvSqrtBound(n, r) && InvSqrtFloor(n, r)
    ensures (n + 1) * (r * r) <= 2 * TWO32 && InvSqrtFloor(n + 1, r)
  {
    InvSqrtBoundMeans(n, r);
    InvSqrtFloorMeans(n, r);
    InvSqrtFloorMeans(n + 1, r);
    Square(r, TWO16);
    MulMono(0, r, r);
    assert (n + 1) * (r * r) == n * (r * r) + r * r;
  }

  /** The next drop is not scheduled earlier than a quarter of interval / sqrt(count), less one. */
  lemma SpacingFloor(count: U32, rec: U16, interval: U32)
    requires InvSqrtFloor(count, rec)
    ensures var d := Spacing(interval, rec) + 1;
            interval * interval <= 16 * (count * (d * d))
  {
    var d, p := Spacing(interval, rec) + 1, interval * rec;
    InvSqrtFloorMeans(count, rec);
    MulMono(0, interval, rec * TWO16);
    MulAssoc(interval, rec, TWO16);
    assert p <= d * TWO16;
    MulMono(0, interval, rec);
    Square(p, d * TWO16);
    SquareOfProduct(d, TWO16);
    SquareOfProduct(interval, rec);
    MulMono((interval * interval) * (rec * rec), (d * d) * TWO32, count);
    MulAssoc(count, d * d, TWO32);
    Rotate(count, interval * interval, rec * rec);
    MulMono(0, interval, interval);
    MulMono(TWO32, 16 * (count * (rec * rec)), interval * interval);
    Sixteen(count * (rec * rec), interval * interval, (count * (d * d)) * TWO32);
    CancelFactor(interval * interval, 16 * (count * (d * d)), TWO32);
  }

  lemma Sixteen(a: int, b: int, c: int)
    requires a * b <= c
    ensures (16 * a) * b <= 16 * c
  {
    MulAssoc(16, a, b);
  }
}
