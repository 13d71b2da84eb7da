/** Validation of netlink attribute streams against a policy (compat/backport-5.2.c:24-401,
    types in backport-include/net/netlink.h:16-90). */
module Netlink {
  import opened Common

  type Byte = x: int | 0 <= x < 256

  const EINVAL := 22
  const ERANGE := 34
  const HDRLEN: nat := 4

  // ----- policies -----

  datatype Kind =
    | Unspec | U8 | U16 | U32 | U64 | Str | Flag | Msecs | Nested | NestedArray | NulString | Binary
    | S8 | S16 | S32 | S64 | Bitfield32 | Reject | ExactLen | ExactLenWarn | MinLen

  datatype Further = NoCheck | Range | Min | Max | ByFunction

  /** A policy entry. `table` is the policy of nested attributes, `mask` the valid bits of a
      bitfield, `check` the number of a validation function. */
  datatype Policy = Policy(kind: Kind, further: Further, len: nat, table: Option<nat>, mask: Option<nat>,
                           min: int, max: int, check: Option<nat>, strictStart: nat)

  /** All policy tables, which may refer to each other and to themselves, and the outside
      validation functions. */
  datatype Context = Context(tables: seq<seq<Policy>>, check: (nat, seq<Byte>) -> int)

  /** A nested policy names an existing table of the stated size. */
  ghost predicate WellFormed(c: Context) {
    forall t, i :: 0 <= t < |c.tables| && 0 <= i < |c.tables[t]| && c.tables[t][i].table.Some? ==>
      c.tables[t][i].table.value < |c.tables| && |c.tables[c.tables[t][i].table.value]| == c.tables[t][i].len + 1
  }

  ghost predicate Fits(c: Context, table: Option<nat>, maxtype: nat) {
    table.Some? ==> table.value < |c.tables| && |c.tables[table.value]| == maxtype + 1
  }

  /** The flags of enum netlink_validation. */
  datatype Flags = Flags(trailing: bool, maxtype: bool, unspec: bool, strictAttrs: bool, nested: bool)

  const Strict := Flags(true, true, true, true, true)

  function Union(v: Flags, w: Flags): Flags {
    Flags(v.trailing || w.trailing, v.maxtype || w.maxtype, v.unspec || w.unspec,
          v.strictAttrs || w.strictAttrs, v.nested || w.nested)
  }

  predicate Within(v: Flags, w: Flags) {
    Union(v, w) == w
  }

  // ----- the stream -----

  function U16At(s: seq<Byte>, pos: nat): (r: nat)
    requires pos + 2 <= |s|
  {
    var low: int, high: int := s[pos], s[pos + 1];
    low + 256 * high
  }

  /** nla_ok: a whole attribute starts at `pos`. */
  predicate AttrAt(s: seq<Byte>, pos: nat) {
    pos + HDRLEN <= |s| && HDRLEN <= U16At(s, pos) <= |s| - pos
  }

  function Data(s: seq<Byte>, pos: nat): (r: seq<Byte>)
    requires AttrAt(s, pos)
    ensures |r| < |s| - pos
  {
    s[pos + HDRLEN..pos + U16At(s, pos)]
  }

  function TypeAt(s: seq<Byte>, pos: nat): nat
    requires AttrAt(s, pos)
  {
    U16At(s, pos + 2) % 0x4000
  }

  predicate NestedFlagAt(s: seq<Byte>, pos: nat)
    requires AttrAt(s, pos)
  {
    U16At(s, pos + 2) >= 0x8000
  }

  /** nla_next: attributes are aligned to four bytes; this may lie beyond the end. */
  function Next(s: seq<Byte>, pos: nat): (r: nat)
    requires AttrAt(s, pos)
    ensures r > pos
  {
    pos + (U16At(s, pos) + 3) / 4 * 4
  }

  // ----- decisions about one attribute -----

  function ExactSize(k: Kind): nat {
    match k
    case U8 => 1 case S8 => 1 case U16 => 2 case S16 => 2
    case U32 => 4 case S32 => 4 case U64 => 8 case S64 => 8
    case _ => 0
  }

  function MinSize(k: Kind): nat {
    if k == Msecs then 8 else if k == Nested then HDRLEN else ExactSize(k)
  }

  predicate Nests(k: Kind) {
    k == Nested || k == NestedArray
  }

  /** Little-endian value of the first `n` bytes. */
  function Unsigned(d: seq<Byte>, n: nat): nat {
    if n == 0 || |d| == 0 then 0 else d[0] + 256 * Unsigned(d[1..], n - 1)
  }

  function Signed(d: seq<Byte>, n: nat): int
    requires n == 1 || n == 2 || n == 4 || n == 8
  {
    var v := Unsigned(d, n);
    var top := match n case 1 => 0x80 case 2 => 0x8000 case 4 => 0x8000_0000 case _ => 0x8000_0000_0000_0000;
    if v >= top then v - 2 * top else v
  }

  predicate BitsWithin(x: nat, mask: nat)
    decreases x
  {
    x == 0 || ((x % 2 == 1 ==> mask % 2 == 1) && BitsWithin(x / 2, mask / 2))
  }

  /** validate_nla_bitfield32. */
  function Bitfield(d: seq<Byte>, mask: Option<nat>): int
    requires |d| == 8
  {
    var value, selector := Unsigned(d, 4), Unsigned(d[4..], 4);
    if mask.None? || !BitsWithin(selector, mask.value) || !BitsWithin(value, mask.value) || !BitsWithin(value, selector)
    then -EINVAL else 0
  }

  /** nla_validate_int_range; an unsigned 64-bit value is compared with the bounds converted
      to unsigned 64 bits. */
  function IntRange(p: Policy, d: seq<Byte>): int {
    var low, high := p.further == Range || p.further == Min, p.further == Range || p.further == Max;
    if p.kind == U64 then
      var v := Unsigned(d, 8);
      if (low && v < ToU64(p.min)) || (high && v > ToU64(p.max)) then -ERANGE else 0
    else if p.kind in {U8, U16, U32, S8, S16, S32, S64} then
      var v := if p.kind in {U8, U16, U32} then Unsigned(d, ExactSize(p.kind)) else Signed(d, ExactSize(p.kind));
      if (low && v < p.min) || (high && v > p.max) then -ERANGE else 0
    else
      -EINVAL
  }

  function ToU64(x: int): int {
    if x < 0 then x + 0x1_0000_0000_0000_0000 else x
  }

  /** The NLA_STRING case. */
  function StringLength(d: seq<Byte>, len: nat): int {
    if |d| < 1 then -ERANGE
    else if len > 0 && (if d[|d| - 1] == 0 then |d| - 1 else |d|) > len then -ERANGE
    else 0
  }

  function NulStringLength(d: seq<Byte>, len: nat): int {
    var n := if len > 0 && len + 1 < |d| then len + 1 else |d|;
    if n == 0 || 0 !in d[..n] then -EINVAL else StringLength(d, len)
  }

  /** The checks that do not descend into the payload, lines 202-328. */
  function Flatly(p: Policy, d: seq<Byte>, v: Flags): int {
    match p.kind
    case ExactLen => if |d| != p.len then -ERANGE else 0
    case Reject => -EINVAL
    case Flag => if |d| > 0 then -ERANGE else 0
    case Bitfield32 => if |d| != 8 then -ERANGE else Bitfield(d, p.mask)
    case NulString => NulStringLength(d, p.len)
    case Str => StringLength(d, p.len)
    case Binary => if p.len > 0 && |d| > p.len then -ERANGE else 0
    case Nested => if 0 < |d| < HDRLEN then -ERANGE else 0
    case NestedArray => if 0 < |d| < HDRLEN then -ERANGE else 0
    case Unspec => if v.unspec then -EINVAL else if |d| < p.len then -ERANGE else 0
    case MinLen => if |d| < p.len then -ERANGE else 0
    case _ => if |d| < (if p.len > 0 then p.len else MinSize(p.kind)) then -ERANGE else 0
  }

  /** The checks before that, lines 176-200. */
  function Early(p: Policy, d: seq<Byte>, nestedFlag: bool, v: Flags): int {
    if v.strictAttrs && ((ExactSize(p.kind) != 0 && |d| != ExactSize(p.kind)) || (p.kind == ExactLenWarn && |d| != p.len))
    then -EINVAL
    else if v.nested && ((Nests(p.kind) && !nestedFlag) || (!Nests(p.kind) && p.kind != Unspec && nestedFlag))
    then -EINVAL
    else 0
  }

  /** The further validation at the end, lines 330-349. */
  function Finally(c: Context, p: Policy, d: seq<Byte>): int {
    match p.further
    case NoCheck => 0
    case ByFunction => if p.check.Some? then c.check(p.check.value, d) else 0
    case _ => IntRange(p, d)
  }

  /** The flags in force for an attribute: from `strict_start_type` on everything is strict. */
  function InForce(c: Context, table: nat, typ: nat, v: Flags): Flags
    requires table < |c.tables| && |c.tables[table]| > 0
  {
    var start := c.tables[table][0].strictStart;
    if start > 0 && typ >= start then Strict else v
  }

  // ----- what validation decides, as a function -----

  /** validate_nla for an attribute of a type within the table. */
  function Attribute(c: Context, d: seq<Byte>, typ: nat, nestedFlag: bool, table: nat, v0: Flags): int
    requires WellFormed(c) && table < |c.tables| && 0 < typ < |c.tables[table]|
    decreases |d|, 2
  {
    var v := InForce(c, table, typ, v0);
    var p := c.tables[table][typ];
    var early := Early(p, d, nestedFlag, v);
    var flatly := Flatly(p, d, v);
    var inside := if Nests(p.kind) && p.table.Some? then Inside(c, p.kind, d, p.len, p.table, v) else 0;
    if early < 0 then early
    else if flatly < 0 then flatly
    else if inside < 0 then inside
    else Finally(c, p, d)
  }

  /** The payload of a nested attribute, which may be empty. */
  function Inside(c: Context, k: Kind, d: seq<Byte>, maxtype: nat, table: Option<nat>, v: Flags): int
    requires WellFormed(c) && Fits(c, table, maxtype)
    decreases |d|, 1, |d| + 1
  {
    if |d| == 0 then 0
    else if k == Nested then Stream(c, d, 0, maxtype, table, v)
    else Elements(c, d, 0, maxtype, table, v)
  }

  /** nla_validate_array, from `pos` on. */
  function Elements(c: Context, s: seq<Byte>, pos: nat, maxtype: nat, table: Option<nat>, v: Flags): int
    requires WellFormed(c) && Fits(c, table, maxtype)
    decreases |s|, 1, if pos <= |s| then |s| - pos else 0
  {
    if !AttrAt(s, pos) then 0
    else
      var d := Data(s, pos);
      var r := if |d| == 0 then 0 else if |d| < HDRLEN then -ERANGE else Stream(c, d, 0, maxtype, table, v);
      if r < 0 then r else Elements(c, s, Next(s, pos), maxtype, table, v)
  }

  /** __nla_validate_parse, from `pos` on. */
  function Stream(c: Context, s: seq<Byte>, pos: nat, maxtype: nat, table: Option<nat>, v: Flags): int
    requires WellFormed(c) && Fits(c, table, maxtype)
    decreases |s|, 1, if pos <= |s| then |s| - pos else 0
  {
    if !AttrAt(s, pos) then
      if pos < |s| && v.trailing then -EINVAL else 0
    else
      var r := One(c, Data(s, pos), TypeAt(s, pos), NestedFlagAt(s, pos), maxtype, table, v);
      if r < 0 then r else Stream(c, s, Next(s, pos), maxtype, table, v)
  }

  /** One attribute of a stream. */
  function One(c: Context, d: seq<Byte>, typ: nat, nestedFlag: bool, maxtype: nat, table: Option<nat>, v: Flags): int
    requires WellFormed(c) && Fits(c, table, maxtype)
    decreases |d|, 3
  {
    if typ == 0 || typ > maxtype then (if v.maxtype then -EINVAL else 0)
    else if table.Some? then Attribute(c, d, typ, nestedFlag, table.value, v)
    else 0
  }

  // ----- strictness -----

  /** Each check is switched on by one flag at most, through all nesting: a stream is accepted
      under two sets of flags together exactly when it is accepted under each of them. */
  lemma {:induction false} UnionStream(c: Context, s: seq<Byte>, pos: nat, maxtype: nat, table: Option<nat>, v: Flags, w: Flags)
    requires WellFormed(c) && Fits(c, table, maxtype)
    ensures Stream(c, s, pos, maxtype, table, Union(v, w)) >= 0 <==>
      Stream(c, s, pos, maxtype, table, v) >= 0 && Stream(c, s, pos, maxtype, table, w) >= 0
    decreases |s|, 1, if pos <= |s| then |s| - pos else 0
  {
    if AttrAt(s, pos) {
      UnionOne(c, Data(s, pos), TypeAt(s, pos), NestedFlagAt(s, pos), maxtype, table, v, w);
      UnionStream(c, s, Next(s, pos), maxtype, table, v, w);
    }
  }

  lemma {:induction false} UnionOne(c: Context, d: seq<Byte>, typ: nat, nestedFlag: bool, maxtype: nat, table: Option<nat>, v: Flags, w: Flags)
    requires WellFormed(c) && Fits(c, table, maxtype)
    ensures One(c, d, typ, nestedFlag, maxtype, table, Union(v, w)) >= 0 <==>
      One(c, d, typ, nestedFlag, maxtype, table, v) >= 0 && One(c, d, typ, nestedFlag, maxtype, table, w) >= 0
    decreases |d|, 3
  {
    if 0 < typ <= maxtype && table.Some? {
      UnionAttribute(c, d, typ, nestedFlag, table.value, v, w);
    }
  }

  lemma {:induction false} UnionElements(c: Context, s: seq<Byte>, pos: nat, maxtype: nat, table: Option<nat>, v: Flags, w: Flags)
    requires WellFormed(c) && Fits(c, table, maxtype)
    ensures Elements(c, s, pos, maxtype, table, Union(v, w)) >= 0 <==>
      Elements(c, s, pos, maxtype, table, v) >= 0 && Elements(c, s, pos, maxtype, table, w) >= 0
    decreases |s|, 1, if pos <= |s| then |s| - pos else 0
  {
    if AttrAt(s, pos) {
      if |Data(s, pos)| >= HDRLEN {
        UnionStream(c, Data(s, pos), 0, maxtype, table, v, w);
      }
      UnionElements(c, s, Next(s, pos), maxtype, table, v, w);
    }
  }

  lemma {:induction false} UnionAttribute(c: Context, d: seq<Byte>, typ: nat, nestedFlag: bool, table: nat, v0: Flags, w0: Flags)
    requires WellFormed(c) && table < |c.tables| && 0 < typ < |c.tables[table]|
    ensures Attribute(c, d, typ, nestedFlag, table, Union(v0, w0)) >= 0 <==>
      Attribute(c, d, typ, nestedFlag, table, v0) >= 0 && Attribute(c, d, typ, nestedFlag, table, w0) >= 0
    decreases |d|, 2
  {
    var v, w := InForce(c, table, typ, v0), InForce(c, table, typ, w0);
    var p := c.tables[table][typ];
    assert InForce(c, table, typ, Union(v0, w0)) == Union(v, w);
    if Nests(p.kind) && p.table.Some? {
      UnionInside(c, p.kind, d, p.len, p.table, v, w);
    }
    UnionEarly(p, d, nestedFlag, v, w);
    UnionFlatly(p, d, v, w);
  }

  lemma {:induction false} UnionInside(c: Context, k: Kind, d: seq<Byte>, maxtype: nat, table: Option<nat>, v: Flags, w: Flags)
    requires WellFormed(c) && Fits(c, table, maxtype)
    ensures Inside(c, k, d, maxtype, table, Union(v, w)) >= 0 <==>
      Inside(c, k, d, maxtype, table, v) >= 0 && Inside(c, k, d, maxtype, table, w) >= 0
    decreases |d|, 1, |d| + 1
  {
    if |d| > 0 {
      UnionStream(c, d, 0, maxtype, table, v, w);
      UnionElements(c, d, 0, maxtype, table, v, w);
    }
  }

  lemma UnionEarly(p: Policy, d: seq<Byte>, nestedFlag: bool, v: Flags, w: Flags)
    ensures Early(p, d, nestedFlag, Union(v, w)) >= 0 <==> Early(p, d, nestedFlag, v) >= 0 && Early(p, d, nestedFlag, w) >= 0
  {
  }

  lemma UnionFlatly(p: Policy, d: seq<Byte>, v: Flags, w: Flags)
    ensures Flatly(p, d, Union(v, w)) >= 0 <==> Flatly(p, d, v) >= 0 && Flatly(p, d, w) >= 0
  {
  }

  /** What is accepted under a set of flags is accepted under every subset. */
  lemma Monotone(c: Context, s: seq<Byte>, maxtype: nat, table: Option<nat>, v: Flags, w: Flags)
    requires WellFormed(c) && Fits(c, table, maxtype) && Within(v, w)
    requires Stream(c, s, 0, maxtype, table, w) >= 0
    ensures Stream(c, s, 0, maxtype, table, v) >= 0
  {
    UnionStream(c, s, 0, maxtype, table, v, w);
  }

  // ----- the loops -----

  /** The offsets of the attributes of a stream, from `pos` on. */
  ghost function Offsets(s: seq<Byte>, pos: nat): seq<nat>
    decreases if pos <= |s| then |s| - pos else 0
  {
    if AttrAt(s, pos) then [pos] + Offsets(s, Next(s, pos)) else []
  }

  /** `o` is the last of these attributes that has type `t`; None if there is none. */
  ghost predicate IsLast(s: seq<Byte>, offsets: seq<nat>, t: nat, o: Option<nat>) {
    match o
    case None => forall i :: 0 <= i < |offsets| ==> AttrAt(s, offsets[i]) && TypeAt(s, offsets[i]) != t
    case Some(p) =>
      exists k :: 0 <= k < |offsets| && offsets[k] == p && AttrAt(s, p) && TypeAt(s, p) == t &&
        forall i :: k < i < |offsets| ==> AttrAt(s, offsets[i]) && TypeAt(s, offsets[i]) != t
  }

  lemma LastOfMore(s: seq<Byte>, offsets: seq<nat>, t: nat, o: Option<nat>, q: nat)
    requires IsLast(s, offsets, t, o) && AttrAt(s, q)
    ensures IsLast(s, offsets + [q], t, if TypeAt(s, q) == t then Some(q) else o)
  {
    var more := offsets + [q];
    if TypeAt(s, q) == t {
      assert more[|offsets|] == q;
    } else if o.Some? {
      var k :| 0 <= k < |offsets| && offsets[k] == o.value && AttrAt(s, o.value) && TypeAt(s, o.value) == t &&
        forall i :: k < i < |offsets| ==> AttrAt(s, offsets[i]) && TypeAt(s, offsets[i]) != t;
      assert more[k] == o.value;
    }
  }

  /** Where the walk over the stream stops. */
  ghost function End(s: seq<Byte>, pos: nat): nat
    decreases if pos <= |s| then |s| - pos else 0
  {
    if AttrAt(s, pos) then End(s, Next(s, pos)) else pos
  }

  ghost predicate Passes(c: Context, s: seq<Byte>, q: nat, maxtype: nat, table: Option<nat>, v: Flags)
    requires WellFormed(c) && Fits(c, table, maxtype)
  {
    AttrAt(s, q) && One(c, Data(s, q), TypeAt(s, q), NestedFlagAt(s, q), maxtype, table, v) >= 0
  }

  ghost predicate AllPass(c: Context, s: seq<Byte>, offsets: seq<nat>, maxtype: nat, table: Option<nat>, v: Flags)
    requires WellFormed(c) && Fits(c, table, maxtype)
  {
    forall i :: 0 <= i < |offsets| ==> Passes(c, s, offsets[i], maxtype, table, v)
  }

  lemma AllPassCons(c: Context, s: seq<Byte>, q: nat, rest: seq<nat>, maxtype: nat, table: Option<nat>, v: Flags)
    requires WellFormed(c) && Fits(c, table, maxtype)
    ensures AllPass(c, s, [q] + rest, maxtype, table, v) <==>
      Passes(c, s, q, maxtype, table, v) && AllPass(c, s, rest, maxtype, table, v)
  {
    var all := [q] + rest;
    assert all[0] == q;
    if AllPass(c, s, all, maxtype, table, v) {
      forall i | 0 <= i < |rest| ensures Passes(c, s, rest[i], maxtype, table, v) {
        assert Passes(c, s, all[i + 1], maxtype, table, v);
      }
    }
  }

  /** A stream is accepted exactly when each of its attributes is and, where that is asked for,
      nothing is left over behind the last one. */
  lemma {:induction false} AcceptedMeans(c: Context, s: seq<Byte>, pos: nat, maxtype: nat, table: Option<nat>, v: Flags)
    requires WellFormed(c) && Fits(c, table, maxtype)
    ensures Stream(c, s, pos, maxtype, table, v) >= 0 <==>
      AllPass(c, s, Offsets(s, pos), maxtype, table, v) && (v.trailing ==> End(s, pos) >= |s|)
    decreases if pos <= |s| then |s| - pos else 0
  {
    if AttrAt(s, pos) {
      AcceptedMeans(c, s, Next(s, pos), maxtype, table, v);
      AllPassCons(c, s, pos, Offsets(s, Next(s, pos)), maxtype, table, v);
    }
  }

  /** Every entry is the last attribute of its type; entry 0 stays empty. */
  ghost predicate Filled(s: seq<Byte>, offsets: seq<nat>, tb: seq<Option<nat>>) {
    |tb| > 0 && tb[0].None? && forall t :: 0 < t < |tb| ==> IsLast(s, offsets, t, tb[t])
  }

  /** __nla_validate_parse. On success every entry of `tb` is the last attribute of its type. */
  method ValidateParse(c: Context, s: seq<Byte>, maxtype: nat, table: Option<nat>, v: Flags, tb: array?<Option<nat>>)
    returns (ret: int)
    requires WellFormed(c) && Fits(c, table, maxtype) && (tb != null ==> tb.Length == maxtype + 1)
    modifies if tb == null then {} else {tb}
    ensures ret == Stream(c, s, 0, maxtype, table, v)
    ensures ret >= 0 && tb != null ==> Filled(s, Offsets(s, 0), tb[..])
    decreases |s|, 1
  {
    if tb != null {
      Clear(s, tb);
    }
    var pos: nat := 0;
    ghost var done: seq<nat> := [];
    while AttrAt(s, pos)
      invariant Stream(c, s, 0, maxtype, table, v) == Stream(c, s, pos, maxtype, table, v)
      invariant Offsets(s, 0) == done + Offsets(s, pos)
      invariant tb != null ==> Filled(s, done, tb[..])
      decreases if pos <= |s| then |s| - pos else 0
    {
      ret := ParseOne(c, s, pos, done, maxtype, table, v, tb);
      if ret < 0 {
        return;
      }
      AssocOffsets(done, s, pos);
      done := done + [pos];
      pos := Next(s, pos);
    }
    assert done + [] == done;
    ret := if pos < |s| && v.trailing then -EINVAL else 0;
  }

  lemma AssocOffsets(done: seq<nat>, s: seq<Byte>, pos: nat)
    requires AttrAt(s, pos)
    ensures done + Offsets(s, pos) == (done + [pos]) + Offsets(s, Next(s, pos))
  {
  }

  /** One turn of the loop: validate the attribute at `pos` and record it. */
  method ParseOne(c: Context, s: seq<Byte>, pos: nat, ghost done: seq<nat>, maxtype: nat, table: Option<nat>, v: Flags,
                  tb: array?<Option<nat>>)
    returns (ret: int)
    requires WellFormed(c) && Fits(c, table, maxtype) && AttrAt(s, pos)
    requires tb != null ==> tb.Length == maxtype + 1 && Filled(s, done, tb[..])
    modifies if tb == null then {} else {tb}
    ensures ret == One(c, Data(s, pos), TypeAt(s, pos), NestedFlagAt(s, pos), maxtype, table, v)
    ensures ret >= 0 && tb != null ==> Filled(s, done + [pos], tb[..])
    decreases |s|, 0
  {
    ret := ValidateOne(c, Data(s, pos), TypeAt(s, pos), NestedFlagAt(s, pos), maxtype, table, v);
    if ret >= 0 && tb != null {
      Record(s, done, pos, maxtype, tb);
    }
  }

  method ValidateOne(c: Context, d: seq<Byte>, typ: nat, nestedFlag: bool, maxtype: nat, table: Option<nat>, v: Flags)
    returns (ret: int)
    requires WellFormed(c) && Fits(c, table, maxtype)
    ensures ret == One(c, d, typ, nestedFlag, maxtype, table, v)
    decreases |d|, 3
  {
    ret := 0;
    if typ == 0 || typ > maxtype {
      if v.maxtype {
        ret := -EINVAL;
      }
    } else if table.Some? {
      ret := ValidateAttribute(c, d, typ, nestedFlag, table.value, v);
    }
  }

  method Clear(s: seq<Byte>, tb: array<Option<nat>>)
    requires tb.Length > 0
    modifies tb
    ensures Filled(s, [], tb[..])
  {
    var i := 0;
    while i < tb.Length
      invariant 0 <= i <= tb.Length && forall t :: 0 <= t < i ==> tb[t].None?
    {
      tb[i] := None;
      i := i + 1;
    }
  }

  /** tb[type] = nla, for a type within the table. */
  method Record(s: seq<Byte>, ghost done: seq<nat>, pos: nat, maxtype: nat, tb: array<Option<nat>>)
    requires AttrAt(s, pos) && tb.Length == maxtype + 1 && Filled(s, done, tb[..])
    modifies tb
    ensures Filled(s, done + [pos], tb[..])
  {
    ghost var was := tb[..];
    var typ := TypeAt(s, pos);
    if 0 < typ <= maxtype {
      tb[typ] := Some(pos);
    }
    forall t | 0 < t <= maxtype ensures IsLast(s, done + [pos], t, tb[t]) {
      LastOfMore(s, done, t, was[t], pos);
      assert tb[t] == if typ == t then Some(pos) else was[t];
    }
  }

  /** nla_validate_array. */
  method ValidateArray(c: Context, s: seq<Byte>, maxtype: nat, table: Option<nat>, v: Flags) returns (ret: int)
    requires WellFormed(c) && Fits(c, table, maxtype)
    ensures ret == Elements(c, s, 0, maxtype, table, v)
    decreases |s|, 1
  {
    var pos: nat := 0;
    while AttrAt(s, pos)
      invariant Elements(c, s, 0, maxtype, table, v) == Elements(c, s, pos, maxtype, table, v)
      decreases if pos <= |s| then |s| - pos else 0
    {
      var d := Data(s, pos);
      if |d| > 0 {
        if |d| < HDRLEN {
          return -ERANGE;
        }
        ret := ValidateParse(c, d, maxtype, table, v, null);
        if ret < 0 {
          return;
        }
      }
      pos := Next(s, pos);
    }
    ret := 0;
  }

  /** validate_nla. */
  method ValidateAttribute(c: Context, d: seq<Byte>, typ: nat, nestedFlag: bool, table: nat, v0: Flags) returns (ret: int)
    requires WellFormed(c) && table < |c.tables| && 0 < typ < |c.tables[table]|
    ensures ret == Attribute(c, d, typ, nestedFlag, table, v0)
    decreases |d|, 2
  {
    var v := InForce(c, table, typ, v0);
    var p := c.tables[table][typ];
    ret := Early(p, d, nestedFlag, v);
    if ret < 0 {
      return;
    }
    ret := Flatly(p, d, v);
    if ret < 0 {
      return;
    }
    if Nests(p.kind) && |d| > 0 && p.table.Some? {
      if p.kind == Nested {
        ret := ValidateParse(c, d, p.len, p.table, v, null);
      } else {
        ret := ValidateArray(c, d, p.len, p.table, v);
      }
      if ret < 0 {
        return;
      }
    }
    ret := Finally(c, p, d);
  }
}
