/** C strings in buffers: sym_escape_string_value and sym_string_valid (kconf/symbol.c:591-632,
    962-1003) and the unescaping in place of kconf/confdata.c:164-170. */
module ConfigBuffer {
  import opened Common
  import opened KconfigExpr
  import opened ConfigText

  // ----- C strings in buffers -----

  /** The C string at `p` is `s`. */
  ghost predicate Text(a: seq<char>, p: nat, s: string) {
    p + |s| < |a| && a[p..p + |s|] == s && a[p + |s|] == NUL && NUL !in s
  }

  lemma TextAt(a: seq<char>, p: nat, s: string, i: nat)
    requires Text(a, p, s) && i <= |s|
    ensures (i < |s| ==> a[p + i] == s[i] != NUL) && Text(a, p + i, s[i..])
  {
    if i < |s| {
      assert a[p + i] == a[p..p + |s|][i];
    }
    assert a[p + i..p + |s|] == a[p..p + |s|][i..];
  }

  /** strcspn with the set of quote and backslash. */
  method Span(s: string, p: nat) returns (l: nat)
    requires p <= |s|
    ensures p + l <= |s| && (forall i :: p <= i < p + l ==> !Special(s[i]))
    ensures p + l < |s| ==> Special(s[p + l])
  {
    l := 0;
    while p + l < |s| && !Special(s[p + l])
      invariant p + l <= |s| && forall i :: p <= i < p + l ==> !Special(s[i])
    {
      l := l + 1;
    }
  }

  // ----- sym_escape_string_value -----

  lemma {:induction false} SpecialsAppend(a: string, b: string)
    ensures Specials(a + b) == Specials(a) + Specials(b)
  {
    if a == "" {
      assert a + b == b;
    } else {
      assert (a + b)[1..] == a[1..] + b;
      SpecialsAppend(a[1..], b);
    }
  }

  lemma {:induction false} NoSpecials(s: string)
    requires forall i :: 0 <= i < |s| ==> !Special(s[i])
    ensures Specials(s) == 0
  {
    if s != "" {
      NoSpecials(s[1..]);
    }
  }

  /** A plain stretch from `p` to `q` behind the part already handled. */
  lemma PlainStretch(s: string, p: nat, q: nat)
    requires p <= q <= |s| && forall i :: p <= i < q ==> !Special(s[i])
    ensures Specials(s[..q]) == Specials(s[..p]) && Escape(s[..q]) == Escape(s[..p]) + s[p..q]
  {
    assert s[..q] == s[..p] + s[p..q];
    SpecialsAppend(s[..p], s[p..q]);
    NoSpecials(s[p..q]);
    EscapeAppend(s[..p], s[p..q]);
    EscapePlain(s[p..q]);
  }

  lemma OneSpecial(s: string, p: nat)
    requires p < |s| && Special(s[p])
    ensures Specials(s[..p + 1]) == Specials(s[..p]) + 1 && Escape(s[..p + 1]) == Escape(s[..p]) + ['\\', s[p]]
  {
    assert s[..p + 1] == s[..p] + [s[p]];
    SpecialsAppend(s[..p], [s[p]]);
    EscapeAppend(s[..p], [s[p]]);
  }

  /** The first pass: the size of the buffer. */
  method EscapedSize(s: string) returns (reslen: nat)
    ensures reslen == |Quoted(s)| + 1
  {
    reslen := |s| + 2 + 1;
    var p := 0;
    while true
      invariant p <= |s| && reslen == |s| + 3 + Specials(s[..p])
      decreases |s| - p
    {
      var l := Span(s, p);
      PlainStretch(s, p, p + l);
      p := p + l;
      if p == |s| {
        break;
      }
      OneSpecial(s, p);
      reslen := reslen + 1;
      p := p + 1;
    }
    assert s[..p] == s;
    EscapeLength(s);
  }

  /** strcat of `what` behind the text of length `w`. */
  method Append(res: array<char>, w: nat, what: string) returns (w': nat)
    requires w + |what| < res.Length
    modifies res
    ensures w' == w + |what| && res[..w'] == old(res[..w]) + what && res[w'] == NUL
  {
    var i := 0;
    while i < |what|
      invariant 0 <= i <= |what| && res[..w] == old(res[..w]) && res[w..w + i] == what[..i]
    {
      res[w + i] := what[i];
      i := i + 1;
    }
    w' := w + |what|;
    res[w'] := NUL;
    assert res[..w'] == res[..w] + res[w..w + i];
  }

  /** The buffer, of exactly the size needed, holds the quote and the first `p` characters
      escaped, `w` characters in all. */
  ghost predicate Filled(buf: seq<char>, w: nat, s: string, p: nat) {
    p <= |s| && |buf| == |Escape(s)| + 3 && w < |buf| && buf[..w] == ['"'] + Escape(s[..p])
  }

  method AppendPlain(res: array<char>, w: nat, s: string, p: nat, l: nat) returns (w': nat)
    requires Filled(res[..], w, s, p) && p + l <= |s| && forall i :: p <= i < p + l ==> !Special(s[i])
    modifies res
    ensures Filled(res[..], w', s, p + l)
  {
    PlainStretch(s, p, p + l);
    RoomFor(s, p + l);
    w' := Append(res, w, s[p..p + l]);
    assert res[..][..w'] == res[..w'];
  }

  method AppendSpecial(res: array<char>, w: nat, s: string, p: nat) returns (w': nat)
    requires Filled(res[..], w, s, p) && p < |s| && Special(s[p])
    modifies res
    ensures Filled(res[..], w', s, p + 1)
  {
    OneSpecial(s, p);
    RoomFor(s, p + 1);
    w' := Append(res, w, ['\\']);
    w' := Append(res, w', [s[p]]);
    assert res[..][..w'] == res[..w'];
  }

  /** sym_escape_string_value: the buffer holds the quoted string, its NUL, and not one
      character more. */
  method EscapeStringValue(s: string) returns (res: array<char>)
    ensures fresh(res) && res[..] == Quoted(s) + [NUL]
  {
    var reslen := EscapedSize(s);
    res := new char[reslen];
    res[0] := NUL;
    var w: nat := Append(res, 0, "\"");
    assert res[..][..1] == res[..1];
    var p: nat := 0;
    while true
      invariant Filled(res[..], w, s, p)
      decreases |s| - p
    {
      var l := Span(s, p);
      w := AppendPlain(res, w, s, p, l);
      p := p + l;
      if p == |s| {
        break;
      }
      w := AppendSpecial(res, w, s, p);
      p := p + 1;
    }
    assert s[..p] == s && res[..w] == res[..][..w];
    w := Append(res, w, "\"");
    assert res[..] == res[..w] + [res[w]];
  }

  lemma RoomFor(s: string, p: nat)
    requires p <= |s|
    ensures |Escape(s[..p])| <= |Escape(s)|
  {
    assert s == s[..p] + s[p..];
    EscapeAppend(s[..p], s[p..]);
  }

  // ----- unescaping in place -----

  lemma PrefixedTwice(a: string, b: string, r: Option<string>)
    ensures Prefixed(a, Prefixed(b, r)) == Prefixed(a + b, r)
  {
    if r.Some? {
      assert a + (b + r.value) == (a + b) + r.value;
    }
  }

  lemma {:induction false} UnescapePlain(a: string, r: string)
    requires forall i :: 0 <= i < |a| ==> !Special(a[i])
    ensures Unescape(a + r) == Prefixed(a, Unescape(r))
  {
    if a == "" {
      assert a + r == r;
      assert Unescape(r).Some? ==> a + Unescape(r).value == Unescape(r).value;
    } else {
      assert (a + r)[1..] == a[1..] + r;
      UnescapePlain(a[1..], r);
      PrefixedTwice([a[0]], a[1..], Unescape(r));
      assert [a[0]] + a[1..] == a;
    }
  }

  /** `done` is read and in place before `q`, the C string `rest` at `q` is to be read. */
  ghost predicate Reading(buf: seq<char>, p: nat, q: nat, done: string, rest: string, s: string) {
    && p <= q && Text(buf, q, rest) && buf[p..q] == done
    && Unescape(s) == Prefixed(done, Unescape(rest))
    && (Unescape(rest).Some? ==> NUL !in done)
  }

  lemma ReadPlain(buf: seq<char>, p: nat, q: nat, done: string, rest: string, s: string, j: nat)
    requires Reading(buf, p, q, done, rest, s) && j <= |rest| && forall i :: 0 <= i < j ==> !Special(rest[i])
    ensures Reading(buf, p, q + j, done + rest[..j], rest[j..], s)
  {
    TextAt(buf, q, rest, j);
    assert rest == rest[..j] + rest[j..];
    UnescapePlain(rest[..j], rest[j..]);
    PrefixedTwice(done, rest[..j], Unescape(rest[j..]));
    assert buf[p..q + j] == buf[p..q] + buf[q..q + j];
    assert buf[q..q + j] == buf[q..q + |rest|][..j];
  }

  /** The text from `at` on moved down by one place over the character there. */
  ghost predicate MovedDown(buf: seq<char>, buf': seq<char>, at: nat, n: nat) {
    && |buf'| == |buf| && at + n < |buf|
    && (forall i :: 0 <= i < at ==> buf'[i] == buf[i])
    && (forall i :: at <= i < at + n ==> buf'[i] == buf[i + 1])
    && (forall i :: at + n <= i < |buf| ==> buf'[i] == buf[i])
  }

  /** After a backslash was moved over, the character behind it is in its place and the text
      behind that one place further on. */
  lemma MovedText(buf: seq<char>, buf': seq<char>, q: nat, rest: string)
    requires Text(buf, q, rest) && |rest| > 1 && MovedDown(buf, buf', q, |rest|)
    ensures buf'[q] == rest[1] && Text(buf', q + 1, rest[2..])
  {
    TextAt(buf, q, rest, 1);
    TextAt(buf, q, rest, 2);
    var tail := rest[2..];
    assert buf[q + 2..q + 2 + |tail|] == tail;
    forall i | 0 <= i < |tail| ensures buf'[q + 1 + i] == tail[i] {
      assert buf'[q + 1 + i] == buf[q + 2 + i] == buf[q + 2..q + 2 + |tail|][i];
    }
    assert buf'[q + 1..q + 1 + |tail|] == tail;
  }

  lemma ReadEscaped(buf: seq<char>, buf': seq<char>, p: nat, q: nat, done: string, rest: string, s: string)
    requires Reading(buf, p, q, done, rest, s) && rest != "" && rest[0] == '\\' && MovedDown(buf, buf', q, |rest|)
    ensures |rest| == 1 ==> Reading(buf', p, q + 1, done + [NUL], "", s)
    ensures |rest| > 1 ==> Reading(buf', p, q + 1, done + [rest[1]], rest[2..], s)
  {
    DoneStays(buf, buf', p, q, |rest|);
    if |rest| > 1 {
      MovedText(buf, buf', q, rest);
      PrefixedTwice(done, [rest[1]], Unescape(rest[2..]));
    } else {
      assert buf'[q] == buf[q + 1] == NUL && buf'[q + 1] == buf[q + 1];
    }
  }

  lemma DoneStays(buf: seq<char>, buf': seq<char>, p: nat, q: nat, n: nat)
    requires p <= q && MovedDown(buf, buf', q, n)
    ensures buf'[p..q + 1] == buf[p..q] + [buf'[q]]
  {
    assert buf'[p..q] == buf[p..q];
  }

  /** strpbrk: the first quote or backslash of the C string at `q`. */
  method FindSpecial(a: array<char>, q: nat, ghost rest: string) returns (r: Option<nat>)
    requires Text(a[..], q, rest)
    ensures r.Some? ==> r.value < |rest| && Special(rest[r.value]) && forall i :: 0 <= i < r.value ==> !Special(rest[i])
    ensures r.None? ==> forall i :: 0 <= i < |rest| ==> !Special(rest[i])
  {
    var i: nat := 0;
    TextAt(a[..], q, rest, 0);
    while a[q + i] != NUL
      invariant i <= |rest| && q + |rest| < a.Length && forall j :: 0 <= j < i ==> !Special(rest[j])
      decreases |rest| - i
    {
      TextAt(a[..], q, rest, i);
      if Special(a[q + i]) {
        return Some(i);
      }
      i := i + 1;
    }
    TextAt(a[..], q, rest, i);
    return None;
  }

  method Length(a: array<char>, q: nat, ghost rest: string) returns (n: nat)
    requires Text(a[..], q, rest)
    ensures n == |rest|
  {
    n := 0;
    while a[q + n] != NUL
      invariant n <= |rest| && q + |rest| < a.Length
      decreases |rest| - n
    {
      TextAt(a[..], q, rest, n);
      n := n + 1;
    }
    TextAt(a[..], q, rest, n);
  }

  /** memmove(p, p + 1, n). */
  method MoveDown(a: array<char>, at: nat, n: nat)
    requires at + n < a.Length
    modifies a
    ensures MovedDown(old(a[..]), a[..], at, n)
  {
    var i := 0;
    while i < n
      invariant 0 <= i <= n
      invariant forall k :: 0 <= k < at ==> a[k] == old(a[k])
      invariant forall k :: at <= k < at + i ==> a[k] == old(a[k + 1])
      invariant forall k :: at + i <= k < a.Length ==> a[k] == old(a[k])
    {
      a[at + i] := a[at + i + 1];
      i := i + 1;
    }
  }

  /** The loop of confdata.c:164-170 over a quoted value: what `Unescape` reads is left in the
      buffer, as a C string at the same place. */
  method UnescapeInPlace(a: array<char>, p: nat, ghost s: string) returns (ok: bool)
    requires Text(a[..], p, s)
    modifies a
    ensures ok == Unescape(s).Some?
    ensures ok ==> Text(a[..], p, Unescape(s).value)
  {
    var q: nat := p;
    ghost var done, rest := "", s;
    assert Unescape(s).Some? ==> "" + Unescape(s).value == Unescape(s).value;
    while true
      invariant Reading(a[..], p, q, done, rest, s)
      decreases |rest|
    {
      var r;
      r, done, rest := NextSpecial(a, p, q, done, rest, s);
      if r.None? {
        return false;
      }
      q := r.value;
      if a[q] == '"' {
        Close(a, p, q, done, rest, s);
        return true;
      }
      done, rest := DropBackslash(a, p, q, done, rest, s);
      q := q + 1;
    }
  }

  /** strpbrk: on to the next quote or backslash. */
  method NextSpecial(a: array<char>, p: nat, q: nat, ghost done: string, ghost rest: string, ghost s: string)
    returns (r: Option<nat>, ghost done': string, ghost rest': string)
    requires Reading(a[..], p, q, done, rest, s)
    ensures r.None? ==> Unescape(s).None?
    ensures r.Some? ==>
      && Reading(a[..], p, r.value, done', rest', s) && |rest'| <= |rest|
      && rest' != "" && Special(rest'[0]) && r.value < a.Length && a[r.value] == rest'[0]
  {
    var k := FindSpecial(a, q, rest);
    ghost var j := if k.Some? then k.value else |rest|;
    ReadPlain(a[..], p, q, done, rest, s, j);
    TextAt(a[..], q, rest, j);
    done', rest' := done + rest[..j], rest[j..];
    r := if k.Some? then Some(q + k.value) else None;
  }

  /** The closing quote becomes the end of the string. */
  method Close(a: array<char>, p: nat, q: nat, ghost done: string, ghost rest: string, ghost s: string)
    requires Reading(a[..], p, q, done, rest, s) && rest != "" && rest[0] == '"'
    modifies a
    ensures Unescape(s).Some? && Text(a[..], p, Unescape(s).value)
  {
    a[q] := NUL;
    assert a[..][p..q] == done;
  }

  method DropBackslash(a: array<char>, p: nat, q: nat, ghost done: string, ghost rest: string, ghost s: string)
    returns (ghost done': string, ghost rest': string)
    requires Reading(a[..], p, q, done, rest, s) && rest != "" && rest[0] == '\\'
    modifies a
    ensures Reading(a[..], p, q + 1, done', rest', s) && |rest'| < |rest|
  {
    var n := Length(a, q, rest);
    ghost var was := a[..];
    MoveDown(a, q, n);
    ReadEscaped(was, a[..], p, q, done, rest, s);
    done', rest' := done + [if |rest| > 1 then rest[1] else NUL], if |rest| > 1 then rest[2..] else "";
  }

  // ----- sym_string_valid -----

  /** The character at `i`, NUL at the end. */
  function CharAt(s: string, i: nat): char {
    if i < |s| then s[i] else NUL
  }

  /** The loops of symbol.c:606-609 and 615-618: only digits from `i` on. */
  method OnlyDigits(s: string, i: nat, hex: bool) returns (b: bool)
    requires i <= |s| && NUL !in s
    ensures b == forall k :: i <= k < |s| ==> (if hex then HexDigit(s[k]) else Digit(s[k]))
  {
    var k := i;
    while CharAt(s, k) != NUL
      invariant i <= k <= |s| && forall j :: i <= j < k ==> (if hex then HexDigit(s[j]) else Digit(s[j]))
      decreases |s| - k
    {
      if !(if hex then HexDigit(s[k]) else Digit(s[k])) {
        return false;
      }
      k := k + 1;
    }
    return true;
  }

  method IntValid(s: string) returns (b: bool)
    requires NUL !in s
    ensures b == Valid(Int, s)
  {
    var k := if CharAt(s, 0) == '-' then 1 else 0;
    assert SkipMinus(s) == s[k..];
    if !Digit(CharAt(s, k)) {
      return false;
    }
    if CharAt(s, k) == '0' && CharAt(s, k + 1) != NUL {
      return false;
    }
    b := OnlyDigits(s, k + 1, false);
    assert forall i :: k <= i < |s| ==> s[i] == s[k..][i - k];
    assert forall i :: 0 <= i < |s| - k ==> s[k..][i] == s[k + i];
  }

  method HexValid(s: string) returns (b: bool)
    requires NUL !in s
    ensures b == Valid(Hex, s)
  {
    var k := if CharAt(s, 0) == '0' && (CharAt(s, 1) == 'x' || CharAt(s, 1) == 'X') then 2 else 0;
    assert SkipHexPrefix(s) == s[k..];
    if !HexDigit(CharAt(s, k)) {
      return false;
    }
    b := OnlyDigits(s, k + 1, true);
    assert forall i :: k <= i < |s| ==> s[i] == s[k..][i - k];
    assert forall i :: 0 <= i < |s| - k ==> s[k..][i] == s[k + i];
  }
}
