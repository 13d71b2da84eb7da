/** Reading a .config file: compat_getline and the handling of a line in place
    (kconf/confdata.c:126-381). */
module ConfigFile {
  import opened Common
  import opened KconfigExpr
  import opened ConfigText
  import opened ConfigBuffer

  // ----- conf_set_sym_val -----

  /** The C string at `p`, copied. */
  method Copy(a: array<char>, p: nat, ghost s: string) returns (v: string)
    requires Text(a[..], p, s)
    ensures v == s
  {
    var n := Length(a, p, s);
    v := a[p..p + n];
  }

  method SetNumber(a: array<char>, p: nat, ghost s: string, t: SymType, name: string) returns (e: Effect, ret: int)
    requires Text(a[..], p, s) && (t == Int || t == Hex)
    ensures e == SetSymVal(t, name, s) && ret == SetSymRet(t, s)
  {
    var v := Copy(a, p, s);
    var b;
    if t == Int {
      b := IntValid(v);
    } else {
      b := HexValid(v);
    }
    e, ret := if b then SetVal(name, v) else Nothing, if b then 0 else 1;
  }

  method SetQuoted(a: array<char>, p: nat, ghost s: string, name: string) returns (e: Effect, ret: int)
    requires Text(a[..], p, s)
    modifies a
    ensures e == SetSymVal(String, name, s) && ret == SetSymRet(String, s)
  {
    TextAt(a[..], p, s, 0);
    if a[p] != '"' {
      return Nothing, 0;
    }
    TextAt(a[..], p, s, 1);
    var ok := UnescapeInPlace(a, p + 1, s[1..]);
    if !ok {
      return Nothing, 1;
    }
    var v := Copy(a, p + 1, Unescape(s[1..]).value);
    e, ret := SetVal(name, v), 0;
  }

  /** conf_set_sym_val, on the buffer that holds the line. Something is set exactly when the text
      was not refused, apart from two silent cases: a string symbol ignores text that does not
      start with a quote, and a symbol of unknown kind any text. */
  method ConfSetSymVal(a: array<char>, p: nat, ghost s: string, t: SymType, name: string) returns (e: Effect, ret: int)
    requires Text(a[..], p, s)
    modifies a
    ensures e == SetSymVal(t, name, s) && ret == SetSymRet(t, s)
    ensures e != Nothing <==> ret == 0 && t != Unknown && (t == String ==> FirstOf(s) == '"')
  {
    TextAt(a[..], p, s, 0);
    e, ret := Nothing, 0;
    match t
    case Tristate =>
      e := if a[p] == 'm' then SetTri(name, MOD) else if a[p] == 'y' then SetTri(name, YES)
           else if a[p] == 'n' then SetTri(name, NO) else Nothing;
      ret := if e == Nothing then 1 else 0;
    case Boolean =>
      e := if a[p] == 'y' then SetTri(name, YES) else if a[p] == 'n' then SetTri(name, NO) else Nothing;
      ret := if e == Nothing then 1 else 0;
    case Other =>
      if a[p] != '"' {
        var v := Copy(a, p, s);
        e := SetString(name, v);
      } else {
        ret := 1;
      }
    case String =>
      e, ret := SetQuoted(a, p, s, name);
    case Unknown =>
    case _ =>
      e, ret := SetNumber(a, p, s, t, name);
  }

  // ----- one line -----

  /** strchr on the C string at `q`. */
  method FindChar(a: array<char>, q: nat, c: char, ghost rest: string) returns (r: Option<nat>)
    requires Text(a[..], q, rest) && c != NUL
    ensures r == Index(rest, c, 0)
  {
    var i: nat := 0;
    TextAt(a[..], q, rest, 0);
    while a[q + i] != NUL
      invariant i <= |rest| && q + |rest| < a.Length && forall j :: 0 <= j < i ==> rest[j] != c
      decreases |rest| - i
    {
      TextAt(a[..], q, rest, i);
      if a[q + i] == c {
        IndexIs(rest, c, 0, i);
        return Some(i);
      }
      i := i + 1;
    }
    TextAt(a[..], q, rest, i);
    assert Index(rest, c, 0).None?;
    return None;
  }

  /** memcmp or strncmp of the C string at `q` with `what`, which holds no NUL. */
  method StartsWith(a: array<char>, q: nat, what: string, ghost rest: string) returns (b: bool)
    requires Text(a[..], q, rest) && NUL !in what
    ensures b == Has(rest, 0, what)
  {
    var i: nat := 0;
    while i < |what|
      invariant i <= |what| && i <= |rest| && q + |rest| < a.Length && rest[..i] == what[..i]
    {
      TextAt(a[..], q, rest, i);
      if a[q + i] != what[i] {
        if |what| <= |rest| {
          assert rest[0..|what|][i] == rest[i];
        }
        return false;
      }
      i := i + 1;
    }
    return true;
  }

  /** A character of a C string overwritten by NUL. */
  lemma CutText(buf: seq<char>, buf': seq<char>, p: nat, s: string, k: nat)
    requires Text(buf, p, s) && k < |s| && buf' == buf[p + k := NUL]
    ensures Text(buf', p, s[..k]) && Text(buf', p + k + 1, s[k + 1..])
  {
    TextAt(buf, p, s, k + 1);
    assert buf'[p..p + k] == buf[p..p + |s|][..k];
    assert buf'[p + k + 1..p + |s|] == buf[p + k + 1..p + |s|];
  }

  method Terminate(a: array<char>, p: nat, k: nat, ghost s: string)
    requires Text(a[..], p, s) && k < |s|
    modifies a
    ensures Text(a[..], p, s[..k]) && Text(a[..], p + k + 1, s[k + 1..]) && a[p + k] == NUL
    ensures forall i :: 0 <= i < a.Length && i != p + k ==> a[i] == old(a[i])
  {
    CutText(a[..], a[..][p + k := NUL], p, s, k);
    a[p + k] := NUL;
    assert a[..] == old(a[..])[p + k := NUL];
  }

  lemma ChompIs(s: string, k: nat)
    requires Index(s, '\n', 0) == Some(k)
    ensures var t := s[..k]; Chomp(s) == if t != "" && t[|t| - 1] == '\r' then t[..|t| - 1] else t
  {
    if k > 0 {
      assert s[..k][..k - 1] == s[..k - 1];
    }
  }

  /** confdata.c:353-358: the value without its line end. */
  method ChompInPlace(a: array<char>, p: nat, ghost s: string)
    requires Text(a[..], p, s) && p > 0 && a[p - 1] == NUL
    modifies a
    ensures Text(a[..], p, Chomp(s))
  {
    var k := FindChar(a, p, '\n', s);
    if k.Some? {
      Terminate(a, p, k.value, s);
      ChompIs(s, k.value);
      CutReturn(a, p, s[..k.value]);
    }
  }

  /** The carriage return at the end of a text, if there is one. */
  method CutReturn(a: array<char>, p: nat, ghost s: string)
    requires Text(a[..], p, s) && p > 0 && a[p - 1] == NUL
    modifies a
    ensures Text(a[..], p, if s != "" && s[|s| - 1] == '\r' then s[..|s| - 1] else s)
  {
    var n := Length(a, p, s);
    if n > 0 {
      TextAt(a[..], p, s, n - 1);
    }
    if a[p + n - 1] == '\r' {
      Terminate(a, p, n - 1, s);
    }
  }

  /** The name in front of the first `c`, which is overwritten; `p` is the place behind it. */
  method SplitName(a: array<char>, from: nat, c: char, ghost r: string) returns (name: Option<string>, p: nat)
    requires Text(a[..], from, r) && c != NUL
    modifies a
    ensures match Index(r, c, 0)
      case None => name.None?
      case Some(k) => name == Some(r[..k]) && 0 < p == from + k + 1 <= a.Length && a[p - 1] == NUL && Text(a[..], p, r[k + 1..])
  {
    var k := FindChar(a, from, c, r);
    if k.None? {
      return None, 0;
    }
    Terminate(a, from, k.value, r);
    var v := Copy(a, from, r[..k.value]);
    return Some(v), from + k.value + 1;
  }

  /** The name between the prefix and the first `c`, which is overwritten. */
  method PrefixedName(a: array<char>, q: nat, ghost s: string, prefix: string, c: char) returns (name: Option<string>, p: nat)
    requires Text(a[..], q, s) && NUL !in prefix && c != NUL
    modifies a
    ensures name.None? ==> !Has(s, 0, prefix) || Index(s[|prefix|..], c, 0).None?
    ensures name.Some? ==> Has(s, 0, prefix) && Index(s[|prefix|..], c, 0).Some?
    ensures name.Some? ==> (var r, k := s[|prefix|..], Index(s[|prefix|..], c, 0).value;
      name == Some(r[..k]) && 0 < p <= a.Length && a[p - 1] == NUL && Text(a[..], p, r[k + 1..]))
  {
    var b := StartsWith(a, q, prefix, s);
    if !b {
      return None, 0;
    }
    TextAt(a[..], q, s, |prefix|);
    name, p := SplitName(a, q + |prefix|, c, s[|prefix|..]);
  }

  method HandleUnset(a: array<char>, q: nat, ghost s: string, prefix: string, types: string -> Option<SymType>)
    returns (e: Effect)
    requires Text(a[..], q, s) && NUL !in prefix
    modifies a
    ensures e == ReadUnset(prefix, types, s)
  {
    var name, p := PrefixedName(a, q, s, prefix, ' ');
    if name.None? {
      return Nothing;
    }
    ghost var r := s[|prefix|..];
    var b := StartsWith(a, p, "is not set", r[Index(r, ' ', 0).value + 1..]);
    e := if b && types(name.value).Some? && types(name.value).value in {Boolean, Tristate} then SetTri(name.value, NO)
         else Nothing;
  }

  method HandleSet(a: array<char>, ghost s: string, prefix: string, types: string -> Option<SymType>)
    returns (e: Effect)
    requires Text(a[..], 0, s) && NUL !in prefix
    modifies a
    ensures e == ReadSet(prefix, types, s)
  {
    var name, p := PrefixedName(a, 0, s, prefix, '=');
    if name.None? {
      return Nothing;
    }
    ghost var r := s[|prefix|..];
    e := Assign(a, p, r[Index(r, '=', 0).value + 1..], name.value, types(name.value));
  }

  /** confdata.c:353-374: the text behind the equals sign goes to the symbol, if there is one. */
  method Assign(a: array<char>, p: nat, ghost s: string, name: string, t: Option<SymType>) returns (e: Effect)
    requires Text(a[..], p, s) && p > 0 && a[p - 1] == NUL
    modifies a
    ensures e == if t.None? then Nothing else SetSymVal(t.value, name, Chomp(s))
  {
    ChompInPlace(a, p, s);
    if t.None? {
      return Nothing;
    }
    var ret;
    e, ret := ConfSetSymVal(a, p, Chomp(s), t.value, name);
  }

  /** The C string at `p`, if it ends within the buffer. */
  ghost predicate Ends(a: seq<char>, p: nat) {
    exists i :: p <= i < |a| && a[i] == NUL
  }

  method FindEnd(a: array<char>, p: nat) returns (n: Option<nat>)
    ensures n.Some? <==> Ends(a[..], p)
    ensures n.Some? ==> p + n.value < a.Length && Text(a[..], p, a[p..p + n.value])
  {
    var i: nat := 0;
    while p + i < a.Length
      invariant p + i <= a.Length || i == 0
      invariant forall k :: p <= k < p + i ==> a[k] != NUL
      decreases a.Length - p - i
    {
      if a[p + i] == NUL {
        assert a[..][p + i] == NUL;
        return Some(i);
      }
      i := i + 1;
    }
    return None;
  }

  /** One turn of the loop of conf_read_simple, in place. Of a line that is only "#" the source
      looks at what its buffer holds behind the end of the line, left over from earlier lines;
      None if that has no end either, so that the source reads beyond the buffer. */
  method HandleLine(a: array<char>, ghost line: string, prefix: string, types: string -> Option<SymType>)
    returns (e: Option<Effect>)
    requires Text(a[..], 0, line) && NUL !in prefix
    modifies a
    ensures line != "#" ==> e == Some(ReadLine(prefix, types, line))
    ensures line == "#" ==>
      if Ends(old(a[..]), 2) then exists rest :: Text(old(a[..]), 2, rest) && e == Some(ReadUnset(prefix, types, rest))
      else e.None?
  {
    TextAt(a[..], 0, line, 0);
    var effect;
    if a[0] != '#' {
      effect := HandleSet(a, line, prefix, types);
      return Some(effect);
    }
    TextAt(a[..], 0, line, 1);
    if a[1] != NUL {
      TextAt(a[..], 0, line, 2);
      effect := HandleUnset(a, 2, line[2..], prefix, types);
      return Some(effect);
    }
    var n := FindEnd(a, 2);
    if n.None? {
      return None;
    }
    effect := HandleUnset(a, 2, a[2..2 + n.value], prefix, types);
    return Some(effect);
  }

  // ----- compat_getline and the whole file -----

  lemma LineEnds(rest: string, n: nat)
    requires n < |rest| && rest[n] == '\n' && '\n' !in rest[..n]
    ensures NextLine(rest) == rest[..n + 1] == rest[..n] + ['\n']
  {
    IndexIs(rest, '\n', 0, n);
  }

  lemma LineRuns(rest: string, n: nat)
    requires n == |rest| && '\n' !in rest[..n]
    ensures NextLine(rest) == rest[..n] == rest
  {
    assert rest[..n] == rest;
  }

  class LineReader {
    const stream: string
    var pos: nat
    var line: array<char>

    constructor (stream: string)
      ensures this.stream == stream && pos == 0 && fresh(line) && line.Length == 0
    {
      this.stream, pos := stream, 0;
      line := new char[0];
    }

    /** add_byte: the buffer grows to twice what is needed and a little more. */
    method AddByte(c: char, slen: nat)
      requires slen <= line.Length
      modifies this`line, line
      ensures line == old(line) || fresh(line)
      ensures line.Length == if slen < old(line.Length) then old(line.Length) else 2 * (slen + 16)
      ensures line[..slen] == old(line[..slen]) && line[slen] == c
    {
      if slen + 1 > line.Length {
        var bigger := new char[2 * (slen + 16)];
        forall i | 0 <= i < line.Length {
          bigger[i] := line[i];
        }
        assert bigger[..slen] == line[..slen];
        line := bigger;
      }
      line[slen] := c;
    }

    /** compat_getline: the next line with its line end, closed by NUL; -1 at the end. */
    method GetLine() returns (n: int)
      requires pos <= |stream|
      modifies this`pos, this`line, line
      ensures pos <= |stream| && (line == old(line) || fresh(line))
      ensures n == -1 <==> old(pos) == |stream|
      ensures n == -1 ==> pos == old(pos)
      ensures n != -1 ==>
        && 0 < n == |NextLine(stream[old(pos)..])| < line.Length && pos == old(pos) + n
        && line[..n] == NextLine(stream[old(pos)..]) && line[n] == NUL
    {
      var slen: nat := 0;
      ghost var rest := stream[pos..];
      while pos < |stream| && stream[pos] != '\n'
        invariant pos == old(pos) + slen <= |stream| && slen <= line.Length && (line == old(line) || fresh(line))
        invariant line[..slen] == rest[..slen] && '\n' !in rest[..slen]
      {
        AddByte(stream[pos], slen);
        assert line[..slen + 1] == line[..slen] + [stream[pos]];
        slen, pos := slen + 1, pos + 1;
      }
      if pos < |stream| {
        AddByte('\n', slen);
        LineEnds(rest, slen);
        assert line[..slen + 1] == line[..slen] + ['\n'];
        slen, pos := slen + 1, pos + 1;
      } else {
        LineRuns(rest, slen);
      }
      AddByte(NUL, slen);
      n := if slen == 0 then -1 else slen;
    }
  }

  /** What may be read off a line: what ReadLine says, except for a lone "#" (which only the last
      line can be, or one with a NUL). */
  ghost predicate Fits(prefix: string, types: string -> Option<SymType>, line: string, e: Option<Effect>) {
    if line != "#" then e == Some(ReadLine(prefix, types, line))
    else e.None? || exists rest :: NUL !in rest && e == Some(ReadUnset(prefix, types, rest))
  }

  ghost predicate AllFit(prefix: string, types: string -> Option<SymType>, lines: seq<string>, effects: seq<Option<Effect>>) {
    |lines| == |effects| && forall i :: 0 <= i < |lines| ==> Fits(prefix, types, lines[i], effects[i])
  }

  lemma HashOnly(s: string)
    requires NUL !in s && s != "" && UptoNul(NextLine(s)) == "#"
    ensures s == "#"
  {
    var line := NextLine(s);
    assert NUL !in line && UptoNul(line) == line;
    assert Index(s, '\n', 0).Some? ==> '\n' in line;
  }

  /** A lone "#" is the last line, or there is a NUL in the file. */
  lemma {:induction false} LoneHash(s: string, i: nat)
    requires NUL !in s && i < |Lines(s)| && Lines(s)[i] == "#"
    ensures i == |Lines(s)| - 1
    decreases |s|
  {
    if i > 0 {
      LoneHash(s[|NextLine(s)|..], i - 1);
    } else {
      HashOnly(s);
      assert NextLine(s) == s;
    }
  }

  /** Without a lone "#" everything is as ReadAll says. */
  lemma {:induction false} AllFitReads(prefix: string, types: string -> Option<SymType>, s: string, effects: seq<Option<Effect>>)
    requires AllFit(prefix, types, Lines(s), effects) && "#" !in Lines(s)
    ensures |effects| == |ReadAll(prefix, types, s)|
    ensures forall i :: 0 <= i < |effects| ==> effects[i] == Some(ReadAll(prefix, types, s)[i])
    decreases |s|
  {
    if s != "" {
      var rest := s[|NextLine(s)|..];
      assert Lines(s)[1..] == Lines(rest);
      AllFitReads(prefix, types, rest, effects[1..]);
      assert effects[0] == Some(ReadLine(prefix, types, Lines(s)[0]));
    }
  }

  lemma LineText(buf: seq<char>, n: nat)
    requires n < |buf| && buf[n] == NUL
    ensures Text(buf, 0, UptoNul(buf[..n]))
  {
    var s := buf[..n];
    var k := Index(s, NUL, 0);
    if k.Some? {
      assert buf[0..k.value] == s[0..k.value] == s[..k.value];
    } else {
      assert s[0..] == s;
    }
  }

  /** The lines up to `pos` have been read. (The quantifiers keep what is known of them from being
      unfolded where it is only carried.) */
  ghost predicate Through(prefix: string, types: string -> Option<SymType>, s: string, pos: nat, effects: seq<Option<Effect>>) {
    pos <= |s| && forall rest :: IsRest(rest, s, pos) ==> Read(prefix, types, s, rest, effects)
  }

  /** `rest` is what is left when the effects of the lines before it have been collected. */
  ghost predicate Read(prefix: string, types: string -> Option<SymType>, s: string, rest: string, effects: seq<Option<Effect>>) {
    exists lines :: Lines(s) == lines + Lines(rest) && AllFit(prefix, types, lines, effects)
  }

  /** What has been read off the line that starts at `pos`. */
  ghost predicate Next(prefix: string, types: string -> Option<SymType>, s: string, pos: nat, e: Option<Effect>) {
    pos < |s| && forall rest :: IsRest(rest, s, pos) ==> Fits(prefix, types, UptoNul(NextLine(rest)), e)
  }

  ghost predicate IsRest(rest: string, s: string, pos: nat) {
    pos <= |s| && rest == s[pos..]
  }

  lemma ThroughStarts(prefix: string, types: string -> Option<SymType>, s: string)
    ensures Through(prefix, types, s, 0, [])
  {
    assert s[0..] == s;
    assert [] + Lines(s) == Lines(s);
  }

  lemma ThroughEnds(prefix: string, types: string -> Option<SymType>, s: string, effects: seq<Option<Effect>>)
    requires Through(prefix, types, s, |s|, effects)
    ensures AllFit(prefix, types, Lines(s), effects)
  {
    assert IsRest("", s, |s|);
    var lines :| Lines(s) == lines + Lines("") && AllFit(prefix, types, lines, effects);
    assert lines + [] == lines;
  }

  lemma AllFitMore(prefix: string, types: string -> Option<SymType>, lines: seq<string>, effects: seq<Option<Effect>>,
                   line: string, e: Option<Effect>)
    requires AllFit(prefix, types, lines, effects) && Fits(prefix, types, line, e)
    ensures AllFit(prefix, types, lines + [line], effects + [e])
  {
    var lines', effects' := lines + [line], effects + [e];
    forall i | 0 <= i < |lines'| ensures Fits(prefix, types, lines'[i], effects'[i]) {
      if i < |lines| {
        assert lines'[i] == lines[i] && effects'[i] == effects[i];
      }
    }
  }

  lemma LinesAhead(all: seq<string>, lines: seq<string>, line: string, ahead: seq<string>)
    requires all == lines + ([line] + ahead)
    ensures all == (lines + [line]) + ahead
  {
  }

  lemma ReadMore(prefix: string, types: string -> Option<SymType>, s: string, rest: string, effects: seq<Option<Effect>>,
                 e: Option<Effect>)
    requires Read(prefix, types, s, rest, effects) && rest != "" && Fits(prefix, types, UptoNul(NextLine(rest)), e)
    ensures Read(prefix, types, s, rest[|NextLine(rest)|..], effects + [e])
  {
    var lines :| Lines(s) == lines + Lines(rest) && AllFit(prefix, types, lines, effects);
    var line := UptoNul(NextLine(rest));
    LinesAhead(Lines(s), lines, line, Lines(rest[|NextLine(rest)|..]));
    AllFitMore(prefix, types, lines, effects, line, e);
  }

  lemma ThroughMore(prefix: string, types: string -> Option<SymType>, s: string, pos: nat, effects: seq<Option<Effect>>,
                    e: Option<Effect>)
    requires Through(prefix, types, s, pos, effects) && Next(prefix, types, s, pos, e)
    ensures Through(prefix, types, s, pos + |NextLine(s[pos..])|, effects + [e])
  {
    var rest, n := s[pos..], |NextLine(s[pos..])|;
    assert IsRest(rest, s, pos);
    ReadMore(prefix, types, s, rest, effects, e);
    assert s[pos + n..] == rest[n..];
  }

  /** One turn of the loop, unless the file is at its end. */
  method ReadOne(reader: LineReader, prefix: string, types: string -> Option<SymType>)
    returns (more: bool, e: Option<Effect>)
    requires reader.pos <= |reader.stream| && NUL !in prefix
    modifies reader`pos, reader`line, reader.line
    ensures reader.line == old(reader.line) || fresh(reader.line)
    ensures !more ==> reader.pos == old(reader.pos) == |reader.stream|
    ensures more ==>
      && Next(prefix, types, reader.stream, old(reader.pos), e)
      && reader.pos == old(reader.pos) + |NextLine(reader.stream[old(reader.pos)..])|
  {
    ghost var line := NextLine(reader.stream[reader.pos..]);
    var n := reader.GetLine();
    if n == -1 {
      return false, None;
    }
    LineText(reader.line[..], n);
    assert reader.line[..][..n] == line;
    more := true;
    e := HandleLine(reader.line, UptoNul(line), prefix, types);
  }

  /** The loop of conf_read_simple: every line does what ReadLine says of it, a lone "#" apart. */
  method ReadFile(stream: string, prefix: string, types: string -> Option<SymType>) returns (effects: seq<Option<Effect>>)
    requires NUL !in prefix
    ensures AllFit(prefix, types, Lines(stream), effects)
  {
    var reader := new LineReader(stream);
    effects := [];
    ghost var pos := 0;
    ThroughStarts(prefix, types, stream);
    var more, e := ReadOne(reader, prefix, types);
    while more
      invariant fresh(reader) && fresh(reader.line) && reader.stream == stream && reader.pos <= |stream|
      invariant Through(prefix, types, stream, pos, effects)
      invariant !more ==> pos == |stream|
      invariant more ==> Next(prefix, types, stream, pos, e) && reader.pos == pos + |NextLine(stream[pos..])|
      decreases |stream| - pos
    {
      ThroughMore(prefix, types, stream, pos, effects, e);
      effects := effects + [e];
      pos := reader.pos;
      more, e := ReadOne(reader, prefix, types);
    }
    ThroughEnds(prefix, types, stream, effects);
  }

  /** What conf_write prints for any list of symbols and headings gives, read back, the same
      settings in the same order; it gives nothing else if and only if the headings are harmless. */
  method WriteAndRead(prefix: string, types: string -> Option<SymType>, items: seq<Item>) returns (effects: seq<Effect>)
    requires Ordinary(prefix) && forall i :: 0 <= i < |items| ==> Writable(prefix, types, items[i])
    ensures Sets(effects) == ReadBack(prefix, types, items)
    ensures Sets(effects) == HoldAll(items) <==> AllHarmless(prefix, types, items)
  {
    var text := PrintAll(prefix, items);
    FileReads(prefix, types, items);
    FileRoundTrip(prefix, types, items);
    PrintedHasNoLoneHash(prefix, types, items);
    var read := ReadFile(text, prefix, types);
    AllFitReads(prefix, types, text, read);
    effects := seq(|read|, i requires 0 <= i < |read| && read[i].Some? => read[i].value);
    assert effects == ReadAll(prefix, types, text);
  }

  lemma LineHasNoLoneHash(line: string, rest: string)
    requires OneLine(line) && "#" !in Lines(rest)
    ensures "#" !in Lines(line + rest)
  {
    NextLineIs(line, rest);
  }

  lemma {:induction false} PrintedHasNoLoneHash(prefix: string, types: string -> Option<SymType>, items: seq<Item>)
    requires forall i :: 0 <= i < |items| ==> Writable(prefix, types, items[i])
    ensures "#" !in Lines(PrintAll(prefix, items))
  {
    if items != [] {
      var x, rest := items[0], PrintAll(prefix, items[1..]);
      assert Writable(prefix, types, x);
      PrintedHasNoLoneHash(prefix, types, items[1..]);
      match x
      case Entry(e) =>
        LineIsOne(prefix, e.name, e.typ, e.value);
        LineHasNoLoneHash(PrintItem(prefix, x), rest);
      case Heading(text) =>
        var line := "# " + text + "\n";
        InParts("\n", "#\n", line, "#\n", rest);
        LineHasNoLoneHash("#\n", rest);
        LineHasNoLoneHash(line, "#\n" + rest);
        LineHasNoLoneHash("#\n", line + ("#\n" + rest));
        LineHasNoLoneHash("\n", "#\n" + (line + ("#\n" + rest)));
    }
  }
}
