/** What it means for a netlink attribute to be accepted (compat/backport-5.2.c:48-401): the demands
    of a policy entry, stated without the checks that enforce them, and the proof that exactly the
    streams that meet them at every depth are accepted. */
module NetlinkPolicy {
  import opened Common
  import opened Netlink

  // ----- integers -----

  function Power(b: nat, n: nat): nat {
    if n == 0 then 1 else b * Power(b, n - 1)
  }

  /** The little-endian bytes of a number. */
  function Encode(x: nat, n: nat): (r: seq<Byte>)
    ensures |r| == n
  {
    if n == 0 then [] else [x % 256] + Encode(x / 256, n - 1)
  }

  predicate IsInteger(k: Kind) {
    k in {U8, U16, U32, U64, S8, S16, S32, S64}
  }

  predicate IsSigned(k: Kind) {
    k in {S8, S16, S32, S64}
  }

  /** The number of bytes of an integer. */
  function Width(k: Kind): nat {
    if k in {U8, S8} then 1 else if k in {U16, S16} then 2 else if k in {U32, S32} then 4 else 8
  }

  function Half(k: Kind): nat {
    128 * Power(256, Width(k) - 1)
  }

  /** The values of an integer type. */
  predicate Represents(k: Kind, x: int) {
    if IsSigned(k) then 0 <= x + Half(k) < 2 * Half(k) else 0 <= x < 2 * Half(k)
  }

  /** Its bytes, in two's complement. */
  function EncodeInt(k: Kind, x: int): (r: seq<Byte>)
    requires Represents(k, x)
    ensures |r| == Width(k)
  {
    Encode(if x < 0 then x + 2 * Half(k) else x, Width(k))
  }

  /** The bytes an integer is read from: what is missing reads as 0. */
  function Padded(d: seq<Byte>, n: nat): (r: seq<Byte>)
    ensures |r| == n
  {
    if n == 0 then [] else if d == [] then [0] + Padded([], n - 1) else [d[0]] + Padded(d[1..], n - 1)
  }

  lemma {:induction false} UnsignedDecodes(d: seq<Byte>, n: nat)
    ensures Unsigned(d, n) < Power(256, n) && Encode(Unsigned(d, n), n) == Padded(d, n)
  {
    if n > 0 {
      var rest := if d == [] then [] else d[1..];
      var b: int := if d == [] then 0 else d[0];
      UnsignedDecodes(rest, n - 1);
      assert Unsigned([], n - 1) == 0;
      var y := Unsigned(rest, n - 1);
      assert Unsigned(d, n) == b + 256 * y;
      assert (b + 256 * y) % 256 == b && (b + 256 * y) / 256 == y;
    }
  }

  lemma {:induction false} EncodeInjective(x: nat, y: nat, n: nat)
    requires x < Power(256, n) && y < Power(256, n) && Encode(x, n) == Encode(y, n)
    ensures x == y
  {
    if n > 0 {
      assert Encode(x, n)[0] == Encode(y, n)[0];
      assert Encode(x, n)[1..] == Encode(x / 256, n - 1) && Encode(y, n)[1..] == Encode(y / 256, n - 1);
      EncodeInjective(x / 256, y / 256, n - 1);
    }
  }

  /** The value the source reads. */
  function Value(k: Kind, d: seq<Byte>): int
    requires IsInteger(k)
  {
    if IsSigned(k) then Signed(d, ExactSize(k)) else Unsigned(d, ExactSize(k))
  }

  lemma Halves(k: Kind)
    requires IsInteger(k)
    ensures ExactSize(k) == Width(k) && 2 * Half(k) == Power(256, Width(k))
    ensures Half(k) == match Width(k) case 1 => 0x80 case 2 => 0x8000 case 4 => 0x8000_0000 case _ => 0x8000_0000_0000_0000
  {
    assert Power(256, 1) == 256 * Power(256, 0);
    assert Power(256, 3) == 256 * Power(256, 2) == 256 * (256 * Power(256, 1));
    assert Power(256, 7) == 256 * Power(256, 6) == 256 * (256 * Power(256, 5)) == 256 * (256 * (256 * Power(256, 4)));
    assert Power(256, 4) == 256 * Power(256, 3);
  }

  /** It is the one value of the type that has these bytes. */
  lemma ValueDecodes(k: Kind, d: seq<Byte>, x: int)
    requires IsInteger(k) && Represents(k, x)
    ensures Represents(k, Value(k, d))
    ensures EncodeInt(k, x) == Padded(d, Width(k)) <==> x == Value(k, d)
  {
    var n := Width(k);
    Halves(k);
    UnsignedDecodes(d, n);
    var u := Unsigned(d, n);
    if EncodeInt(k, x) == Padded(d, n) {
      EncodeInjective(if x < 0 then x + 2 * Half(k) else x, u, n);
    }
  }

  /** The bounds that a policy entry states, an unsigned 64-bit value being compared with them as
      unsigned 64-bit numbers. */
  predicate WithinBounds(p: Policy, x: int) {
    && (p.further == Range || p.further == Min ==> (if p.kind == U64 && p.min < 0 then p.min + Power(256, 8) else p.min) <= x)
    && (p.further == Range || p.further == Max ==> x <= (if p.kind == U64 && p.max < 0 then p.max + Power(256, 8) else p.max))
  }

  /** The payload starts with the bytes of a value within the bounds. */
  ghost predicate InBounds(p: Policy, d: seq<Byte>) {
    IsInteger(p.kind) && exists x :: Represents(p.kind, x) && EncodeInt(p.kind, x) == Padded(d, Width(p.kind)) && WithinBounds(p, x)
  }

  lemma TwoTo64()
    ensures Power(256, 8) == 0x1_0000_0000_0000_0000
  {
    Halves(U64);
  }

  lemma RangeOfValue(p: Policy, d: seq<Byte>)
    requires p.further in {Range, Min, Max} && IsInteger(p.kind)
    ensures IntRange(p, d) == if WithinBounds(p, Value(p.kind, d)) then 0 else -ERANGE
  {
    TwoTo64();
  }

  lemma InBoundsOfValue(p: Policy, d: seq<Byte>)
    requires IsInteger(p.kind)
    ensures InBounds(p, d) <==> WithinBounds(p, Value(p.kind, d))
  {
    var v := Value(p.kind, d);
    ValueRepresented(p.kind, d);
    ValueDecodes(p.kind, d, v);
    forall x | Represents(p.kind, x) && EncodeInt(p.kind, x) == Padded(d, Width(p.kind)) ensures x == v {
      ValueDecodes(p.kind, d, x);
    }
  }

  lemma ValueRepresented(k: Kind, d: seq<Byte>)
    requires IsInteger(k)
    ensures Represents(k, Value(k, d))
  {
    Halves(k);
    UnsignedDecodes(d, Width(k));
  }

  lemma RangeIff(p: Policy, d: seq<Byte>)
    requires p.further in {Range, Min, Max}
    ensures IntRange(p, d) >= 0 <==> InBounds(p, d)
    ensures IsInteger(p.kind) && !InBounds(p, d) ==> IntRange(p, d) == -ERANGE
  {
    if IsInteger(p.kind) {
      RangeOfValue(p, d);
      InBoundsOfValue(p, d);
    }
  }

  // ----- bitfields -----

  predicate Bit(x: nat, i: nat)
    decreases i
  {
    if i == 0 then x % 2 == 1 else Bit(x / 2, i - 1)
  }

  /** Bit `i` of the 32 that start the payload. */
  predicate PayloadBit(d: seq<Byte>, i: nat)
    requires i < 8 * |d|
  {
    Bit(d[i / 8], i % 8)
  }

  lemma {:induction false} NoBits(i: nat)
    ensures !Bit(0, i)
  {
    if i > 0 {
      NoBits(i - 1);
    }
  }

  ghost predicate BitsIn(x: nat, y: nat) {
    forall i: nat :: Bit(x, i) ==> Bit(y, i)
  }

  lemma {:induction false} WithinIff(x: nat, mask: nat)
    ensures BitsWithin(x, mask) <==> BitsIn(x, mask)
    decreases x
  {
    if x == 0 {
      forall i: nat ensures !Bit(x, i) {
        NoBits(i);
      }
    } else {
      WithinIff(x / 2, mask / 2);
      if BitsWithin(x, mask) {
        forall i: nat | Bit(x, i) ensures Bit(mask, i) {
          if i > 0 {
            assert Bit(x / 2, i - 1) ==> Bit(mask / 2, i - 1);
          } else {
            assert x % 2 == 1 && mask % 2 == 1;
          }
        }
      } else if x % 2 == 1 && mask % 2 == 0 {
        assert Bit(x, 0) && !Bit(mask, 0);
      } else {
        var i: nat :| Bit(x / 2, i) && !Bit(mask / 2, i);
        assert Bit(x, i + 1) && !Bit(mask, i + 1);
      }
    }
  }

  lemma {:induction false} BitSplit(a: nat, y: nat, k: nat, i: nat)
    requires a < Power(2, k)
    ensures Bit(a + Power(2, k) * y, i) == if i < k then Bit(a, i) else Bit(y, i - k)
  {
    if k > 0 {
      var q := Power(2, k - 1);
      assert Power(2, k) * y == 2 * (q * y) by {
        assert Power(2, k) == 2 * q;
      }
      if i > 0 {
        assert (a + 2 * (q * y)) / 2 == a / 2 + q * y;
        BitSplit(a / 2, y, k - 1, i - 1);
      }
    }
  }

  lemma {:induction false} UnsignedBits(d: seq<Byte>, n: nat, i: nat)
    requires n <= |d|
    ensures Bit(Unsigned(d, n), i) == (i < 8 * n && Bit(d[i / 8], i % 8))
  {
    if n == 0 {
      NoBits(i);
    } else {
      assert Power(2, 8) == 256 by {
        assert Power(2, 4) == 16;
      }
      BitSplit(d[0], Unsigned(d[1..], n - 1), 8, i);
      if i >= 8 {
        UnsignedBits(d[1..], n - 1, i - 8);
        assert (i - 8) / 8 == i / 8 - 1 && (i - 8) % 8 == i % 8;
      }
    }
  }

  /** A value and a selector of 32 bits each: what is set is selected, and what is selected is valid. */
  ghost predicate BitsFit(d: seq<Byte>, mask: Option<nat>)
    requires |d| == 8
  {
    mask.Some? && AllFit(d[..4], d[4..], mask.value)
  }

  ghost predicate AllFit(value: seq<Byte>, selector: seq<Byte>, mask: nat)
    requires |value| == |selector| == 4
  {
    forall i: nat :: i < 32 ==> FitsAt(value, selector, mask, i)
  }

  predicate FitsAt(value: seq<Byte>, selector: seq<Byte>, mask: nat, i: nat)
    requires |value| == |selector| == 4 && i < 32
  {
    (PayloadBit(value, i) ==> PayloadBit(selector, i)) && (PayloadBit(selector, i) ==> Bit(mask, i))
  }

  lemma {:induction false} UnsignedPrefix(d: seq<Byte>, n: nat)
    requires n <= |d|
    ensures Unsigned(d[..n], n) == Unsigned(d, n)
  {
    if n > 0 {
      assert d[..n][1..] == d[1..][..n - 1];
      UnsignedPrefix(d[1..], n - 1);
    }
  }

  lemma BitfieldIff(d: seq<Byte>, mask: Option<nat>)
    requires |d| == 8
    ensures Bitfield(d, mask) >= 0 <==> BitsFit(d, mask)
  {
    var a, b := d[..4], d[4..];
    var value, selector := Unsigned(d, 4), Unsigned(b, 4);
    UnsignedPrefix(d, 4);
    forall i: nat
      ensures Bit(value, i) == (i < 32 && Bit(a[i / 8], i % 8)) && Bit(selector, i) == (i < 32 && Bit(b[i / 8], i % 8))
    {
      UnsignedBits(a, 4, i);
      UnsignedBits(b, 4, i);
    }
    if mask.Some? {
      WithinIff(selector, mask.value);
      WithinIff(value, mask.value);
      WithinIff(value, selector);
      BitsDecide(a, b, value, selector, mask.value);
    }
  }

  lemma BitsDecide(a: seq<Byte>, b: seq<Byte>, value: nat, selector: nat, mask: nat)
    requires |a| == |b| == 4
    requires forall i: nat :: Bit(value, i) == (i < 32 && Bit(a[i / 8], i % 8))
    requires forall i: nat :: Bit(selector, i) == (i < 32 && Bit(b[i / 8], i % 8))
    ensures BitsIn(selector, mask) && BitsIn(value, mask) && BitsIn(value, selector) <==> AllFit(a, b, mask)
  {
    if AllFit(a, b, mask) {
      forall i: nat | Bit(selector, i) ensures Bit(mask, i) {
        assert FitsAt(a, b, mask, i);
      }
      forall i: nat | Bit(value, i) ensures Bit(selector, i) {
        assert FitsAt(a, b, mask, i);
      }
    } else {
      var i: nat :| i < 32 && !FitsAt(a, b, mask, i);
      assert Bit(value, i) == PayloadBit(a, i) && Bit(selector, i) == PayloadBit(b, i);
    }
  }

  // ----- one attribute -----

  /** The length of a string, without a NUL at its end. */
  function TextLength(d: seq<Byte>): nat {
    if d != [] && d[|d| - 1] == 0 then |d| - 1 else |d|
  }

  /** The least length of a payload when the policy states none. */
  function Least(k: Kind): nat {
    if IsInteger(k) then Width(k) else if k == Msecs then 8 else 0
  }

  /** What the policy demands of the payload itself. */
  ghost predicate Shaped(p: Policy, d: seq<Byte>, v: Flags) {
    match p.kind
    case Reject => false
    case Flag => d == []
    case ExactLen => |d| == p.len
    case MinLen => |d| >= p.len
    case Unspec => !v.unspec && |d| >= p.len
    case Binary => p.len > 0 ==> |d| <= p.len
    case Str => d != [] && (p.len > 0 ==> TextLength(d) <= p.len)
    case NulString =>
      && (exists i :: 0 <= i < |d| && d[i] == 0 && (p.len > 0 ==> i <= p.len))
      && (p.len > 0 ==> TextLength(d) <= p.len)
    case Bitfield32 => |d| == 8 && BitsFit(d, p.mask)
    case Nested => d == [] || |d| >= 4
    case NestedArray => d == [] || |d| >= 4
    case _ => |d| >= (if p.len > 0 then p.len else Least(p.kind))
  }

  /** What the strict flags add: the exact length of integers, and the nesting bit on nested
      attributes and on no others. */
  predicate StrictlyOk(p: Policy, d: seq<Byte>, nestedFlag: bool, v: Flags) {
    && (v.strictAttrs ==> (IsInteger(p.kind) ==> |d| == Width(p.kind)) && (p.kind == ExactLenWarn ==> |d| == p.len))
    && (v.nested ==> (p.kind in {Nested, NestedArray} ==> nestedFlag) &&
                     (nestedFlag ==> p.kind in {Nested, NestedArray, Unspec}))
  }

  ghost predicate FurtherOk(c: Context, p: Policy, d: seq<Byte>) {
    match p.further
    case NoCheck => true
    case ByFunction => p.check.Some? ==> c.check(p.check.value, d) >= 0
    case _ => InBounds(p, d)
  }

  lemma EarlyIff(p: Policy, d: seq<Byte>, nestedFlag: bool, v: Flags)
    ensures Early(p, d, nestedFlag, v) >= 0 <==> StrictlyOk(p, d, nestedFlag, v)
  {
    if IsInteger(p.kind) {
      Halves(p.kind);
    }
  }

  lemma FlatlyIff(p: Policy, d: seq<Byte>, v: Flags)
    ensures Flatly(p, d, v) >= 0 <==> Shaped(p, d, v)
  {
    match p.kind
    case Bitfield32 =>
      if |d| == 8 {
        BitfieldIff(d, p.mask);
      }
    case NulString => NulStringIff(d, p.len);
    case _ =>
      if IsInteger(p.kind) {
        Halves(p.kind);
      }
  }

  lemma NulStringIff(d: seq<Byte>, len: nat)
    ensures NulStringLength(d, len) >= 0 <==>
      (exists i :: 0 <= i < |d| && d[i] == 0 && (len > 0 ==> i <= len)) && (len > 0 ==> TextLength(d) <= len)
  {
    var n := if len > 0 && len + 1 < |d| then len + 1 else |d|;
    if 0 in d[..n] {
      var i :| 0 <= i < n && d[..n][i] == 0;
      assert d[i] == 0;
    }
    if exists i :: 0 <= i < |d| && d[i] == 0 && (len > 0 ==> i <= len) {
      var i :| 0 <= i < |d| && d[i] == 0 && (len > 0 ==> i <= len);
      assert d[..n][i] == 0;
    }
  }

  lemma FinallyIff(c: Context, p: Policy, d: seq<Byte>)
    ensures Finally(c, p, d) >= 0 <==> FurtherOk(c, p, d)
  {
    if p.further in {Range, Min, Max} {
      RangeIff(p, d);
    }
  }

  // ----- a stream, at every depth -----

  /** An attribute of a known type meets the demands of its policy entry, and what is inside it does. */
  ghost predicate Conforms(c: Context, d: seq<Byte>, typ: nat, nestedFlag: bool, table: nat, v0: Flags)
    requires WellFormed(c) && table < |c.tables| && 0 < typ < |c.tables[table]|
    decreases |d|, 2
  {
    var start := c.tables[table][0].strictStart;
    var v := if 0 < start <= typ then Strict else v0;
    var p := c.tables[table][typ];
    && StrictlyOk(p, d, nestedFlag, v) && Shaped(p, d, v) && FurtherOk(c, p, d)
    && (p.kind == Nested && p.table.Some? && d != [] ==> StreamConforms(c, d, p.len, p.table, v))
    && (p.kind == NestedArray && p.table.Some? && d != [] ==> ArrayConforms(c, d, p.len, p.table, v))
  }

  /** Every element of a nested array is empty or a conforming stream. */
  ghost predicate ArrayConforms(c: Context, s: seq<Byte>, maxtype: nat, table: Option<nat>, v: Flags)
    requires WellFormed(c) && Fits(c, table, maxtype)
    decreases |s|, 1
  {
    forall q :: q in Offsets(s, 0) ==>
      AttrAt(s, q) && var d := Data(s, q); d == [] || (|d| >= 4 && StreamConforms(c, d, maxtype, table, v))
  }

  /** Every attribute of a known type conforms, there are unknown ones only where they are allowed,
      and nothing is left over where that is demanded. */
  ghost predicate StreamConforms(c: Context, s: seq<Byte>, maxtype: nat, table: Option<nat>, v: Flags)
    requires WellFormed(c) && Fits(c, table, maxtype)
    decreases |s|, 1
  {
    && (v.trailing ==> End(s, 0) >= |s|)
    && forall q :: q in Offsets(s, 0) ==> AttrAt(s, q) && AttrConforms(c, s, q, maxtype, table, v)
  }

  ghost predicate AttrConforms(c: Context, s: seq<Byte>, q: nat, maxtype: nat, table: Option<nat>, v: Flags)
    requires WellFormed(c) && Fits(c, table, maxtype) && AttrAt(s, q)
    decreases |s|, 0
  {
    var typ := TypeAt(s, q);
    if 0 < typ <= maxtype
    then table.Some? ==> Conforms(c, Data(s, q), typ, NestedFlagAt(s, q), table.value, v)
    else !v.maxtype
  }

  lemma {:induction false} AttributeIff(c: Context, d: seq<Byte>, typ: nat, nestedFlag: bool, table: nat, v0: Flags)
    requires WellFormed(c) && table < |c.tables| && 0 < typ < |c.tables[table]|
    ensures Attribute(c, d, typ, nestedFlag, table, v0) >= 0 <==> Conforms(c, d, typ, nestedFlag, table, v0)
    decreases |d|, 2
  {
    var v, p := InForce(c, table, typ, v0), c.tables[table][typ];
    EarlyIff(p, d, nestedFlag, v);
    FlatlyIff(p, d, v);
    FinallyIff(c, p, d);
    if Nests(p.kind) && p.table.Some? && d != [] {
      if p.kind == Nested {
        StreamIff(c, d, p.len, p.table, v);
      } else {
        ArrayIff(c, d, p.len, p.table, v);
      }
    }
  }

  /** A stream is accepted exactly when it conforms to its policy at every depth. */
  lemma {:induction false} StreamIff(c: Context, s: seq<Byte>, maxtype: nat, table: Option<nat>, v: Flags)
    requires WellFormed(c) && Fits(c, table, maxtype)
    ensures Stream(c, s, 0, maxtype, table, v) >= 0 <==> StreamConforms(c, s, maxtype, table, v)
    decreases |s|, 1
  {
    AcceptedMeans(c, s, 0, maxtype, table, v);
    var all := Offsets(s, 0);
    forall q | q in all && AttrAt(s, q)
      ensures Passes(c, s, q, maxtype, table, v) <==> AttrConforms(c, s, q, maxtype, table, v)
    {
      if 0 < TypeAt(s, q) <= maxtype && table.Some? {
        AttributeIff(c, Data(s, q), TypeAt(s, q), NestedFlagAt(s, q), table.value, v);
      }
    }
    OffsetsAreAttrs(s, 0);
    assert forall i :: 0 <= i < |all| ==> all[i] in all;
  }

  lemma {:induction false} OffsetsAreAttrs(s: seq<Byte>, pos: nat)
    ensures forall q :: q in Offsets(s, pos) ==> AttrAt(s, q)
    decreases if pos <= |s| then |s| - pos else 0
  {
    if AttrAt(s, pos) {
      OffsetsAreAttrs(s, Next(s, pos));
    }
  }

  ghost predicate ElementOk(c: Context, s: seq<Byte>, q: nat, maxtype: nat, table: Option<nat>, v: Flags)
    requires WellFormed(c) && Fits(c, table, maxtype) && AttrAt(s, q)
  {
    var d := Data(s, q);
    d == [] || (|d| >= 4 && Stream(c, d, 0, maxtype, table, v) >= 0)
  }

  lemma {:induction false} ElementsMean(c: Context, s: seq<Byte>, pos: nat, maxtype: nat, table: Option<nat>, v: Flags)
    requires WellFormed(c) && Fits(c, table, maxtype)
    ensures Elements(c, s, pos, maxtype, table, v) >= 0 <==>
      forall q :: q in Offsets(s, pos) ==> AttrAt(s, q) && ElementOk(c, s, q, maxtype, table, v)
    decreases if pos <= |s| then |s| - pos else 0
  {
    if AttrAt(s, pos) {
      ElementsMean(c, s, Next(s, pos), maxtype, table, v);
      assert Offsets(s, pos) == [pos] + Offsets(s, Next(s, pos));
      assert pos in Offsets(s, pos);
      assert forall q :: q in Offsets(s, Next(s, pos)) ==> q in Offsets(s, pos);
    }
  }

  lemma {:induction false} ArrayIff(c: Context, s: seq<Byte>, maxtype: nat, table: Option<nat>, v: Flags)
    requires WellFormed(c) && Fits(c, table, maxtype)
    ensures Elements(c, s, 0, maxtype, table, v) >= 0 <==> ArrayConforms(c, s, maxtype, table, v)
    decreases |s|, 1
  {
    ElementsMean(c, s, 0, maxtype, table, v);
    forall q | q in Offsets(s, 0) && AttrAt(s, q) && |Data(s, q)| >= 4
      ensures Stream(c, Data(s, q), 0, maxtype, table, v) >= 0 <==> StreamConforms(c, Data(s, q), maxtype, table, v)
    {
      StreamIff(c, Data(s, q), maxtype, table, v);
    }
  }

  /** An integer attribute with a value of its type is accepted exactly when the value is within the
      bounds of the policy, and refused with -ERANGE otherwise. */
  lemma IntegerAccepted(c: Context, p: Policy, x: int, typ: nat, table: nat, v: Flags)
    requires WellFormed(c) && table < |c.tables| && 0 < typ < |c.tables[table]| && p == c.tables[table][typ]
    requires IsInteger(p.kind) && p.len == 0 && p.further in {Range, Min, Max} && Represents(p.kind, x)
    ensures Attribute(c, EncodeInt(p.kind, x), typ, false, table, v) == if WithinBounds(p, x) then 0 else -ERANGE
  {
    var d := EncodeInt(p.kind, x);
    var w := InForce(c, table, typ, v);
    Halves(p.kind);
    PaddedWhole(d);
    EarlyIff(p, d, false, w);
    FlatlyIff(p, d, w);
    RangeIff(p, d);
    forall y | Represents(p.kind, y) && EncodeInt(p.kind, y) == d ensures y == x {
      ValueDecodes(p.kind, d, x);
      ValueDecodes(p.kind, d, y);
    }
  }

  lemma {:induction false} PaddedWhole(d: seq<Byte>)
    ensures Padded(d, |d|) == d
  {
    if d != [] {
      PaddedWhole(d[1..]);
    }
  }

  // ----- a stream as it is written -----

  /** An attribute: its type, the nesting bit and its payload. */
  datatype Attr = Attr(typ: nat, nestedFlag: bool, data: seq<Byte>)

  predicate Writable(a: Attr) {
    a.typ < 0x4000 && |a.data| + 4 < 0x1_0000
  }

  function Zeros(n: nat): (r: seq<Byte>)
    ensures |r| == n
  {
    seq(n, _ => 0)
  }

  /** nla_put: the header, the payload and padding to a multiple of four. */
  function Put(a: Attr): (r: seq<Byte>)
    requires Writable(a)
    ensures |r| == (|a.data| + 4 + 3) / 4 * 4
  {
    Encode(|a.data| + 4, 2) + Encode(a.typ + if a.nestedFlag then 0x8000 else 0, 2) + a.data
    + Zeros((|a.data| + 4 + 3) / 4 * 4 - (|a.data| + 4))
  }

  function PutAll(attrs: seq<Attr>): seq<Byte>
    requires forall i :: 0 <= i < |attrs| ==> Writable(attrs[i])
  {
    if attrs == [] then [] else Put(attrs[0]) + PutAll(attrs[1..])
  }

  lemma TwoBytes(x: nat)
    requires x < 0x1_0000
    ensures Encode(x, 2) == [x % 256, x / 256] && x % 256 + 256 * (x / 256) == x
  {
    assert Encode(x / 256, 1) == [x / 256 % 256] + Encode(x / 256 / 256, 0);
  }

  lemma PutParts(a: Attr)
    requires Writable(a)
    ensures var w, len, word := Put(a), |a.data| + 4, a.typ + if a.nestedFlag then 0x8000 else 0;
            && w[0] == len % 256 && w[1] == len / 256 && w[2] == word % 256 && w[3] == word / 256
            && len <= |w| && w[4..len] == a.data
  {
    var len, word := |a.data| + 4, a.typ + if a.nestedFlag then 0x8000 else 0;
    TwoBytes(len);
    TwoBytes(word);
    var head, tail := Encode(len, 2) + Encode(word, 2), Zeros((len + 3) / 4 * 4 - len);
    Middle(head, a.data, tail);
  }

  lemma Middle(head: seq<Byte>, d: seq<Byte>, tail: seq<Byte>)
    ensures (head + d + tail)[|head|..|head| + |d|] == d
  {
  }

  /** What is written at a place is read there. */
  lemma PutIsRead(s: seq<Byte>, q: nat, a: Attr, post: seq<Byte>)
    requires Writable(a) && q <= |s| && s[q..] == Put(a) + post
    ensures AttrAt(s, q) && Data(s, q) == a.data && TypeAt(s, q) == a.typ && NestedFlagAt(s, q) == a.nestedFlag
    ensures Next(s, q) == q + |Put(a)| <= |s| && s[Next(s, q)..] == post
  {
    var len, word := |a.data| + 4, a.typ + if a.nestedFlag then 0x8000 else 0;
    TwoBytes(len);
    TwoBytes(word);
    var t, w := s[q..], Put(a);
    PutParts(a);
    assert t[0] == w[0] && t[1] == w[1] && t[2] == w[2] && t[3] == w[3];
    assert U16At(s, q) == len && U16At(s, q + 2) == word;
    assert t[4..len] == w[4..len];
    assert s[q + 4..q + len] == t[4..len];
    assert s[q + |w|..] == t[|w|..] == post;
  }

  /** The attributes a walk over the stream comes to. */
  ghost function Read(s: seq<Byte>, pos: nat): seq<Attr>
    decreases if pos <= |s| then |s| - pos else 0
  {
    if AttrAt(s, pos) then [Attr(TypeAt(s, pos), NestedFlagAt(s, pos), Data(s, pos))] + Read(s, Next(s, pos)) else []
  }

  /** The walk comes to exactly the attributes that were written, in order, and to the end. */
  lemma {:induction false} PutAllIsRead(s: seq<Byte>, q: nat, attrs: seq<Attr>)
    requires forall i :: 0 <= i < |attrs| ==> Writable(attrs[i])
    requires q <= |s| && s[q..] == PutAll(attrs)
    ensures Read(s, q) == attrs && End(s, q) == |s|
    decreases |attrs|
  {
    if attrs != [] {
      PutIsRead(s, q, attrs[0], PutAll(attrs[1..]));
      PutAllIsRead(s, Next(s, q), attrs[1..]);
    }
  }
}
