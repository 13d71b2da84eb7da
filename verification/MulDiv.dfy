/** 64-bit multiplication followed by division (compat/backport-5.9.c:7-44). */
module MulDiv {

  const Two64: nat := 0x1_0000_0000_0000_0000
  const Two63: nat := 0x8000_0000_0000_0000

  type U64 = x: int | 0 <= x < Two64

  // ----- arithmetic, by recursion -----

  function Mul(x: nat, y: nat): nat {
    if x == 0 then 0 else y + Mul(x - 1, y)
  }

  function Quot(x: nat, d: nat): (q: nat)
    requires d > 0
    ensures q <= x
  {
    if x < d then 0 else 1 + Quot(x - d, d)
  }

  function Rem(x: nat, d: nat): (r: nat)
    requires d > 0
    ensures r <= x && r < d
  {
    if x < d then x else Rem(x - d, d)
  }

  function Pow2(n: nat): (r: nat)
    ensures r >= 1
  {
    if n == 0 then 1 else 2 * Pow2(n - 1)
  }

  /** Right shift by halving. */
  function Shr(x: nat, n: nat): (r: nat)
    ensures r <= x
  {
    if n == 0 then x else Shr(x / 2, n - 1)
  }

  /** Index of the highest bit set, -1 for 0. */
  function ILog2(x: nat): (r: int)
    ensures r >= -1 && (r == -1 <==> x == 0)
  {
    if x == 0 then -1 else 1 + ILog2(x / 2)
  }

  /** Reduction to 64 bits. */
  function Wrap(x: nat): U64 {
    if x < Two64 then x else Wrap(x - Two64)
  }

  /** The 64-bit product. */
  function Times(x: U64, y: U64): U64 {
    Wrap(Mul(x, y))
  }

  // ----- the function -----

  predicate MayOverflow(a: U64, b: U64) {
    ILog2(a) + ILog2(b) > 62
  }

  /** How many low bits of the remainder and the divisor are dropped. */
  function Shift(a: U64, b: U64, c: U64): int
    requires c > 0
  {
    if MayOverflow(a, b) then ILog2(a) + ILog2(Rem(b, c)) - 62 else 0
  }

  /** A right shift; C leaves shifting a 64-bit value by 64 undefined, and `wide` stands for
      whatever the machine then delivers. */
  function ShiftRight(x: U64, n: nat, wide: U64 -> U64): U64 {
    if n < 64 then Shr(x, n) else wide(x)
  }

  /** The values of res, b and c at the last line (with c == 0: at the early return). */
  datatype Plan = Plan(res: U64, b: U64, c: U64)

  function Prepare(a: U64, b: U64, c: U64, wide: U64 -> U64): Plan
    requires c > 0
  {
    if MayOverflow(a, b) then
      var s := Shift(a, b, c);
      var res := Times(Quot(b, c), a);
      if s > 0 then Plan(res, ShiftRight(Rem(b, c), s, wide), ShiftRight(c, s, wide)) else Plan(res, Rem(b, c), c)
    else
      Plan(0, b, c)
  }

  function MulDivU64(a: U64, b: U64, c: U64, wide: U64 -> U64): U64
    requires c > 0
  {
    var p := Prepare(a, b, c, wide);
    if p.c == 0 then p.res else Wrap(p.res + Quot(Times(a, p.b), p.c))
  }

  // ----- the recursive arithmetic is the usual one -----

  lemma {:induction false} MulIs(x: nat, y: nat)
    ensures Mul(x, y) == x * y
  {
    if x > 0 {
      MulIs(x - 1, y);
      assert x * y == y + (x - 1) * y;
    }
  }

  lemma {:induction false} QuotRem(x: nat, d: nat)
    requires d > 0
    ensures x == Mul(Quot(x, d), d) + Rem(x, d)
  {
    if x >= d {
      QuotRem(x - d, d);
    }
  }

  lemma {:induction false} QuotientIs(x: nat, d: nat, q: nat, r: nat)
    requires d > 0 && x == Mul(q, d) + r && r < d
    ensures Quot(x, d) == q && Rem(x, d) == r
    decreases q
  {
    if q > 0 {
      QuotientIs(x - d, d, q - 1, r);
    }
  }

  lemma QuotIsDiv(x: nat, d: nat)
    requires d > 0
    ensures Quot(x, d) == x / d && Rem(x, d) == x % d
  {
    MulIs(x / d, d);
    QuotientIs(x, d, x / d, x % d);
  }

  lemma {:induction false} MulDouble(x: nat, y: nat)
    ensures Mul(x, 2 * y) == 2 * Mul(x, y)
  {
    if x > 0 {
      MulDouble(x - 1, y);
    }
  }

  lemma {:induction false} ShrIsQuot(x: nat, n: nat)
    ensures Mul(Shr(x, n), Pow2(n)) <= x < Mul(Shr(x, n), Pow2(n)) + Pow2(n)
  {
    if n == 0 {
      MulIs(x, 1);
    } else {
      ShrIsQuot(x / 2, n - 1);
      MulDouble(Shr(x, n), Pow2(n - 1));
    }
  }

  // ----- quotients -----

  lemma Regroup(a: nat, b: nat, c: nat, q: nat, r: nat, q': nat, r': nat)
    requires b == q * c + r && a * r == q' * c + r'
    ensures a * b == (q * a + q') * c + r'
  {
    calc {
      a * b;
      a * (q * c) + a * r;
      { assert a * (q * c) == (q * a) * c; }
      (q * a) * c + q' * c + r';
      (q * a + q') * c + r';
    }
  }

  lemma Recombine(a: nat, b: nat, c: nat, q: nat, r: nat, q': nat, r': nat)
    requires b == Mul(q, c) + r && Mul(a, r) == Mul(q', c) + r'
    ensures Mul(a, b) == Mul(Mul(q, a) + q', c) + r'
  {
    MulIs(q, c);
    MulIs(a, r);
    MulIs(q', c);
    Regroup(a, b, c, q, r, q', r');
    MulIs(q, a);
    MulIs(a, b);
    MulIs(q * a + q', c);
  }

  /** (b * a) / c == (b / c) * a + (b % c) * a / c, the identity the code relies on. */
  lemma SplitQuotient(a: nat, b: nat, c: nat)
    requires c > 0
    ensures Quot(Mul(a, b), c) == Mul(Quot(b, c), a) + Quot(Mul(a, Rem(b, c)), c)
  {
    QuotRem(b, c);
    SplitWith(a, b, c, Quot(b, c), Rem(b, c), Mul(a, b), Mul(a, Rem(b, c)));
  }

  lemma SplitWith(a: nat, b: nat, c: nat, q: nat, r: nat, ab: nat, ar: nat)
    requires c > 0 && b == Mul(q, c) + r && ab == Mul(a, b) && ar == Mul(a, r)
    ensures Quot(ab, c) == Mul(q, a) + Quot(ar, c)
  {
    QuotRem(ar, c);
    SplitAt(a, b, c, q, r, Quot(ar, c), Rem(ar, c), ab, Mul(q, a) + Quot(ar, c));
  }

  lemma SplitAt(a: nat, b: nat, c: nat, q: nat, r: nat, q': nat, r': nat, ab: nat, s: nat)
    requires c > 0 && b == Mul(q, c) + r && ab == Mul(a, b) && Mul(a, r) == Mul(q', c) + r'
    requires r' < c && s == Mul(q, a) + q'
    ensures Quot(ab, c) == s
  {
    Recombine(a, b, c, q, r, q', r');
    QuotientIs(ab, c, s, r');
  }

  // ----- logarithms -----

  lemma {:induction false} ILog2Means(x: nat)
    requires x > 0
    ensures Pow2(ILog2(x)) <= x < 2 * Pow2(ILog2(x))
  {
    if x > 1 {
      ILog2Means(x / 2);
    }
  }

  lemma {:induction false} Pow2Adds(m: nat, n: nat)
    ensures Pow2(m + n) == Pow2(m) * Pow2(n)
  {
    if m > 0 {
      Pow2Adds(m - 1, n);
      assert Pow2(m) * Pow2(n) == 2 * (Pow2(m - 1) * Pow2(n));
    }
  }

  lemma {:induction false} Pow2Monotone(m: nat, n: nat)
    requires m <= n
    ensures Pow2(m) <= Pow2(n)
    decreases n
  {
    if m < n {
      Pow2Monotone(m, n - 1);
    }
  }

  lemma Pow2Is32()
    ensures Pow2(32) == 0x1_0000_0000
  {
    assert Pow2(4) == 16;
    Pow2Adds(4, 4);
    Pow2Adds(8, 8);
    Pow2Adds(16, 16);
  }

  lemma Pow2Is64()
    ensures Pow2(64) == Two64 && Pow2(63) == Two63
  {
    Pow2Is32();
    Pow2Adds(32, 32);
  }

  lemma MulBelow(x: nat, y: nat, m: nat, n: nat)
    requires x < m && y < n
    ensures x * y < m * n
  {
    assert m * n == x * n + (m - x) * n;
    assert x * n == x * y + x * (n - y);
    assert (m - x) * n > 0;
  }

  /** Numbers whose highest bits add up to at most 62 have a product of 64 bits. */
  lemma ProductOf64Bits(x: nat, y: nat)
    requires ILog2(x) + ILog2(y) <= 62
    ensures Mul(x, y) < Two64
  {
    MulIs(x, y);
    if x > 0 && y > 0 {
      var m, n := ILog2(x) + 1, ILog2(y) + 1;
      ILog2Means(x);
      ILog2Means(y);
      assert Pow2(m) == 2 * Pow2(m - 1) && Pow2(n) == 2 * Pow2(n - 1);
      MulBelow(x, y, Pow2(m), Pow2(n));
      Pow2Adds(m, n);
      Pow2Monotone(m + n, 64);
      Pow2Is64();
    }
  }

  lemma {:induction false} ILog2Shr(x: nat, n: nat)
    ensures ILog2(Shr(x, n)) == if ILog2(x) >= n then ILog2(x) - n else -1
  {
    if n > 0 {
      ILog2Shr(x / 2, n - 1);
    }
  }

  lemma ILog2Of64Bits(x: U64)
    ensures ILog2(x) <= 63 && (ILog2(x) == 63 <==> x >= Two63)
  {
    Pow2Is64();
    if x > 0 {
      ILog2Means(x);
      if ILog2(x) >= 64 {
        Pow2Monotone(64, ILog2(x));
      }
      if ILog2(x) < 63 {
        Pow2Monotone(ILog2(x) + 1, 63);
      }
    }
  }

  lemma {:induction false} ILog2Monotone(x: nat, y: nat)
    requires x <= y
    ensures ILog2(x) <= ILog2(y)
  {
    if x > 0 {
      ILog2Monotone(x / 2, y / 2);
    }
  }

  // ----- the shift count and the final product -----

  /** The shift count stays below the width of the operands exactly when the factor and the
      remainder do not both have their top bit set. */
  lemma ShiftDefined(a: U64, b: U64, c: U64)
    requires c > 0
    ensures Shift(a, b, c) <= 64
    ensures Shift(a, b, c) < 64 <==> !(a >= Two63 && Rem(b, c) >= Two63)
  {
    ILog2Of64Bits(a);
    ILog2Of64Bits(Rem(b, c));
    ILog2Monotone(Rem(b, c), b);
  }

  /** Unless the shift count is out of range, the product of the last line never overflows. */
  lemma FinalProductFits(a: U64, b: U64, c: U64, wide: U64 -> U64)
    requires c > 0 && Shift(a, b, c) < 64
    ensures Mul(a, Prepare(a, b, c, wide).b) < Two64
  {
    if MayOverflow(a, b) && Shift(a, b, c) > 0 {
      ILog2Shr(Rem(b, c), Shift(a, b, c));
      ILog2Of64Bits(a);
    }
    ProductOf64Bits(a, Prepare(a, b, c, wide).b);
  }

  /** On a machine that takes the shift count modulo 64 the product does overflow in the
      excluded case. */
  lemma FinalProductOverflows(a: U64, b: U64, c: U64)
    requires c > 0 && Shift(a, b, c) == 64
    ensures Mul(a, Prepare(a, b, c, x => x).b) >= Two64
  {
    ShiftDefined(a, b, c);
    MulIs(a, Rem(b, c));
    MulAtLeast(a, Rem(b, c));
  }

  lemma MulAtLeast(x: nat, y: nat)
    requires x >= Two63 && y >= Two63
    ensures x * y >= Two64
  {
    assert x * y == x * 2 + x * (y - 2);
  }

  // ----- the result -----

  lemma {:induction false} WrapSum(x: nat, y: nat)
    ensures Wrap(Wrap(x) + y) == Wrap(x + y)
  {
    if x >= Two64 {
      WrapSum(x - Two64, y);
    }
  }

  lemma {:induction false} WrapIsMod(x: nat)
    ensures Wrap(x) == x % Two64
  {
    if x >= Two64 {
      WrapIsMod(x - Two64);
    }
  }

  lemma LastLine(qa: nat, product: nat, c: nat)
    requires c > 0 && product < Two64
    ensures Wrap(Wrap(qa) + Quot(Wrap(product), c)) == Wrap(qa + Quot(product, c))
  {
    WrapSum(qa, Quot(product, c));
  }

  /** The result when no bits are dropped: the exact quotient, reduced to 64 bits. */
  lemma ExactUnlessShifted(a: U64, b: U64, c: U64, wide: U64 -> U64)
    requires c > 0 && Shift(a, b, c) <= 0
    ensures MulDivU64(a, b, c, wide) == Wrap(Quot(Mul(a, b), c))
  {
    FinalProductFits(a, b, c, wide);
    if MayOverflow(a, b) {
      Unfolded(a, b, c, wide);
      SplitQuotient(a, b, c);
      LastLine(Mul(Quot(b, c), a), Mul(a, Rem(b, c)), c);
    } else {
      LastLine(0, Mul(a, b), c);
    }
  }

  lemma Unfolded(a: U64, b: U64, c: U64, wide: U64 -> U64)
    requires c > 0 && MayOverflow(a, b) && Shift(a, b, c) <= 0
    ensures Prepare(a, b, c, wide) == Plan(Times(Quot(b, c), a), Rem(b, c), c)
  {
  }

  // ----- the error when bits are dropped -----

  lemma Mono(x: nat, y: nat, k: nat)
    requires x <= y
    ensures x * k <= y * k
  {
  }

  lemma StrictMono(x: nat, y: nat, k: nat)
    requires x < y && k > 0
    ensures x * k < y * k
  {
    Dist(y - x, x, k);
    Mono(1, y - x, k);
  }

  lemma Cancel(x: nat, y: nat, k: nat)
    requires x * k < y * k
    ensures x < y
  {
    if x >= y {
      Mono(y, x, k);
    }
  }

  lemma Dist(x: nat, y: nat, k: nat)
    ensures (x + y) * k == x * k + y * k
  {
  }

  lemma Assoc(x: nat, y: nat, k: nat)
    ensures (x * y) * k == x * (y * k)
  {
  }

  /** `q` is the quotient of `n` by `d`. */
  ghost predicate IsQuot(q: nat, n: nat, d: nat) {
    q * d <= n < q * d + d
  }

  /** The quotient of the shortened numbers is not too small. */
  lemma NotTooSmall(a: nat, r: nat, c: nat, p: nat, b': nat, c': nat, x: nat, y: nat, e: nat)
    requires p > 0 && IsQuot(b', r, p) && IsQuot(c', c, p) && c' > 0
    requires IsQuot(x, a * b', c') && IsQuot(y, a * r, c) && IsQuot(e, a, c')
    ensures y <= x + e + 1
  {
    DividendBelow(a, r, p, b');
    SumBelow(a * b', a, c', x, e);
    ScaleDown(y, x + e + 2, a * b' + a, c, c', p);
  }

  lemma DividendBelow(a: nat, r: nat, p: nat, b': nat)
    requires r < b' * p + p
    ensures a * r <= (a * b' + a) * p
  {
    Mono(r, b' * p + p, a);
    Assoc(a, b', p);
    Dist(a * b', a, p);
  }

  lemma SumBelow(ab: nat, a: nat, c': nat, x: nat, e: nat)
    requires ab < x * c' + c' && a < e * c' + c'
    ensures ab + a < (x + e + 2) * c'
  {
    Dist(x + 1, e + 1, c');
    Dist(x, 1, c');
    Dist(e, 1, c');
  }

  lemma ScaleDown(y: nat, m: nat, t: nat, c: nat, c': nat, p: nat)
    requires y * c <= t * p && t < m * c' && c' * p <= c && p > 0
    ensures y < m
  {
    StrictMono(t, m * c', p);
    Assoc(m, c', p);
    Mono(c' * p, c, m);
    Cancel(y, m, c);
  }

  /** ... and not too large. */
  lemma NotTooLarge(a: nat, r: nat, c: nat, p: nat, b': nat, c': nat, x: nat, y: nat, e: nat)
    requires p > 0 && IsQuot(b', r, p) && IsQuot(c', c, p) && c' > 0 && r < c
    requires IsQuot(x, a * b', c') && IsQuot(y, a * r, c) && IsQuot(e, a, c')
    ensures x <= y + e + 1
  {
    ShortenedBelow(a, r, c, p, b', c', y);
    YBelow(a, r, c, y);
    SmallEnough(a * b', a, c', x, y, e);
  }

  /** a b' < (y + 1)(c' + 1): the dividend with the low bits gone, against the exact quotient. */
  lemma ShortenedBelow(a: nat, r: nat, c: nat, p: nat, b': nat, c': nat, y: nat)
    requires p > 0 && b' * p <= r && c < c' * p + p && a * r < y * c + c
    ensures a * b' < (y + 1) * c' + (y + 1)
  {
    Mono(b' * p, r, a);
    Assoc(a, b', p);
    Dist(y, 1, c);
    Dist(c', 1, p);
    Mono(c, (c' + 1) * p, y + 1);
    Assoc(y + 1, c' + 1, p);
    Cancel(a * b', (y + 1) * (c' + 1), p);
    Dist(c', 1, y + 1);
  }

  lemma SmallEnough(ab: nat, a: nat, c': nat, x: nat, y: nat, e: nat)
    requires ab < (y + 1) * c' + (y + 1) && x * c' <= ab && a < e * c' + c' && (y < a || (a == 0 && y == 0)) && c' > 0
    ensures x <= y + e + 1
  {
    Dist(e, 1, c');
    Dist(y + 1, e + 1, c');
    Mono(1, e + 1, c');
    Cancel(x, (y + 1) + (e + 1), c');
  }

  lemma YBelow(a: nat, r: nat, c: nat, y: nat)
    requires r < c && y * c <= a * r
    ensures y < a || (a == 0 && y == 0)
  {
    if a > 0 {
      StrictMono(r, c, a);
      Cancel(y, a, c);
    } else {
      assert y * c == 0;
    }
  }

  lemma QuotIsQuot(n: nat, d: nat)
    requires d > 0
    ensures IsQuot(Quot(n, d), n, d)
  {
    QuotRem(n, d);
    MulIs(Quot(n, d), d);
  }

  lemma ShrIsQuotOf(x: nat, n: nat)
    ensures IsQuot(Shr(x, n), x, Pow2(n))
  {
    ShrIsQuot(x, n);
    MulIs(Shr(x, n), Pow2(n));
  }

  ghost predicate Near(x: nat, y: nat, e: nat) {
    x <= y + e && y <= x + e
  }

  /** The quotient of the shortened numbers against the exact one. */
  lemma ShortenedIsNear(a: nat, r: nat, c: nat, n: nat)
    requires r < c && Shr(c, n) > 0
    ensures Near(Quot(Mul(a, Shr(r, n)), Shr(c, n)), Quot(Mul(a, r), c), Quot(a, Shr(c, n)) + 1)
  {
    var p, b', c' := Pow2(n), Shr(r, n), Shr(c, n);
    ShrIsQuotOf(r, n);
    ShrIsQuotOf(c, n);
    MulIs(a, b');
    MulIs(a, r);
    var x, y, e := Quot(Mul(a, b'), c'), Quot(Mul(a, r), c), Quot(a, c');
    QuotIsQuot(Mul(a, b'), c');
    QuotIsQuot(Mul(a, r), c);
    QuotIsQuot(a, c');
    NotTooSmall(a, r, c, p, b', c', x, y, e);
    NotTooLarge(a, r, c, p, b', c', x, y, e);
  }

  /** The result before it is reduced to 64 bits, when `n` bits are dropped. */
  function Approximation(a: U64, b: U64, c: U64, n: nat): nat
    requires c > 0
  {
    Mul(Quot(b, c), a) + if Shr(c, n) == 0 then 0 else Quot(Mul(a, Shr(Rem(b, c), n)), Shr(c, n))
  }

  /** The result when bits are dropped. */
  lemma ApproximateWhenShifted(a: U64, b: U64, c: U64, wide: U64 -> U64)
    requires c > 0 && 0 < Shift(a, b, c) < 64
    ensures MulDivU64(a, b, c, wide) == Wrap(Approximation(a, b, c, Shift(a, b, c)))
  {
    FinalProductFits(a, b, c, wide);
    var n := Shift(a, b, c);
    if Shr(c, n) > 0 {
      LastLine(Mul(Quot(b, c), a), Mul(a, Shr(Rem(b, c), n)), Shr(c, n));
    }
  }

  /** The approximation is within a / (c >> n) + 1 of the exact quotient; and when nothing is
      left of the divisor, below it by less than `a`. */
  lemma ApproximationError(a: U64, b: U64, c: U64, n: nat)
    requires c > 0
    ensures Shr(c, n) > 0 ==> Near(Approximation(a, b, c, n), Quot(Mul(a, b), c), Quot(a, Shr(c, n)) + 1)
    ensures Shr(c, n) == 0 ==> Approximation(a, b, c, n) <= Quot(Mul(a, b), c) <= Approximation(a, b, c, n) + a
  {
    SplitQuotient(a, b, c);
    if Shr(c, n) > 0 {
      ShortenedIsNear(a, Rem(b, c), c, n);
    } else {
      var ar := Mul(a, Rem(b, c));
      QuotIsQuot(ar, c);
      MulIs(a, Rem(b, c));
      YBelow(a, Rem(b, c), c, Quot(ar, c));
    }
  }

  /** In the usual operators: exact when no bits are dropped and the quotient fits. */
  lemma ExactQuotient(a: U64, b: U64, c: U64, wide: U64 -> U64, ab: nat)
    requires c > 0 && Shift(a, b, c) <= 0 && ab == a * b && ab / c < Two64
    ensures MulDivU64(a, b, c, wide) == ab / c
  {
    MulIs(a, b);
    QuotIsDiv(ab, c);
    ExactUnlessShifted(a, b, c, wide);
  }

  /** A shift by the full width does occur. */
  lemma FullWidthShift()
    ensures Shift(Two64 - 1, Two63, Two64 - 1) == 64
  {
    ShiftDefined(Two64 - 1, Two63, Two64 - 1);
  }

  /** `q` and `e` are the quotients a * b / c and a / c', in the usual operators. */
  ghost predicate Quotients(a: U64, b: U64, c: U64, c': nat, q: nat, e: nat) {
    c > 0 && c' > 0 && q == a * b / c && e == a / c'
  }

  lemma QuotientsAre(a: U64, b: U64, c: U64, c': nat, q: nat, e: nat)
    requires Quotients(a, b, c, c', q, e)
    ensures q == Quot(Mul(a, b), c) && e == Quot(a, c')
  {
    MulIs(a, b);
    QuotIsDiv(a * b, c);
    QuotIsDiv(a, c');
  }

  /** The error of the function itself: when bits are dropped, something is left of the divisor
      and the sum fits, the result is within a / (c >> shift) + 1 of the exact quotient. */
  lemma ErrorWhenShifted(a: U64, b: U64, c: U64, wide: U64 -> U64, q: nat, e: nat)
    requires c > 0 && 0 < Shift(a, b, c) < 64 && Quotients(a, b, c, Shr(c, Shift(a, b, c)), q, e)
    requires Approximation(a, b, c, Shift(a, b, c)) < Two64
    ensures Near(MulDivU64(a, b, c, wide), q, e + 1)
  {
    ApproximateWhenShifted(a, b, c, wide);
    ApproximationError(a, b, c, Shift(a, b, c));
    QuotientsAre(a, b, c, Shr(c, Shift(a, b, c)), q, e);
  }

  /** The sum fits whenever the exact quotient is that far from the limit. */
  lemma SumFits(a: U64, b: U64, c: U64, q: nat, e: nat)
    requires c > 0 && 0 < Shift(a, b, c) < 64 && Quotients(a, b, c, Shr(c, Shift(a, b, c)), q, e)
    requires q + e + 1 < Two64
    ensures Approximation(a, b, c, Shift(a, b, c)) < Two64
  {
    ApproximationError(a, b, c, Shift(a, b, c));
    QuotientsAre(a, b, c, Shr(c, Shift(a, b, c)), q, e);
  }

  /** Without any condition on the sum: the result is the remainder modulo 2^64 of a number that
      near to the exact quotient. */
  lemma ResultWhenShifted(a: U64, b: U64, c: U64, wide: U64 -> U64, q: nat, e: nat) returns (u: nat)
    requires c > 0 && 0 < Shift(a, b, c) < 64 && Quotients(a, b, c, Shr(c, Shift(a, b, c)), q, e)
    ensures MulDivU64(a, b, c, wide) == u % Two64 && Near(u, q, e + 1)
  {
    u := Approximation(a, b, c, Shift(a, b, c));
    ApproximateWhenShifted(a, b, c, wide);
    WrapIsMod(u);
    ApproximationError(a, b, c, Shift(a, b, c));
    QuotientsAre(a, b, c, Shr(c, Shift(a, b, c)), q, e);
  }
}
