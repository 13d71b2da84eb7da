/** The lines of a .config file: how kconf/confdata.c:487-508 and 629-648 print a symbol, and
    what lines 126-194 and 313-381 read from a line. */
module ConfigText {
  import opened Common
  import opened KconfigExpr

  const NUL: char := '\0'

  // ----- quoted strings -----

  predicate Special(c: char) {
    c == '"' || c == '\\'
  }

  /** A backslash before every quote and backslash. */
  function Escape(s: string): string {
    if s == "" then "" else (if Special(s[0]) then ['\\', s[0]] else [s[0]]) + Escape(s[1..])
  }

  function Quoted(s: string): string {
    ['"'] + Escape(s) + ['"']
  }

  function Specials(s: string): nat {
    if s == "" then 0 else (if Special(s[0]) then 1 else 0) + Specials(s[1..])
  }

  function Prefixed(c: string, r: Option<string>): Option<string> {
    if r.None? then None else Some(c + r.value)
  }

  /** The text up to the closing quote, a backslash standing for the character behind it. */
  function Unescape(s: string): Option<string> {
    if s == "" then None
    else if s[0] == '"' then Some("")
    else if s[0] == '\\' then (if |s| == 1 then None else Prefixed([s[1]], Unescape(s[2..])))
    else Prefixed([s[0]], Unescape(s[1..]))
  }

  lemma {:induction false} EscapeAppend(a: string, b: string)
    ensures Escape(a + b) == Escape(a) + Escape(b)
  {
    if a == "" {
      assert a + b == b;
    } else {
      assert (a + b)[1..] == a[1..] + b;
      EscapeAppend(a[1..], b);
    }
  }

  lemma {:induction false} EscapePlain(s: string)
    requires forall i :: 0 <= i < |s| ==> !Special(s[i])
    ensures Escape(s) == s
  {
    if s != "" {
      EscapePlain(s[1..]);
    }
  }

  lemma {:induction false} EscapeLength(s: string)
    ensures |Escape(s)| == |s| + Specials(s)
  {
    if s != "" {
      EscapeLength(s[1..]);
    }
  }

  /** Reading undoes escaping, whatever follows the closing quote. */
  lemma {:induction false} UnescapeUndoes(s: string, tail: string)
    ensures Unescape(Escape(s) + ['"'] + tail) == Some(s)
  {
    var all := Escape(s) + ['"'] + tail;
    if s == "" {
      assert all[0] == '"';
    } else {
      var rest := Escape(s[1..]) + ['"'] + tail;
      UnescapeUndoes(s[1..], tail);
      assert s == [s[0]] + s[1..];
      if Special(s[0]) {
        assert all[0] == '\\' && all[1] == s[0] && all[2..] == rest;
      } else {
        assert all[0] == s[0] && all[1..] == rest;
      }
    }
  }

  lemma {:induction false} EscapeAddsNothing(s: string, c: char)
    requires c !in s && c != '\\'
    ensures c !in Escape(s)
  {
    if s != "" {
      EscapeAddsNothing(s[1..], c);
    }
  }

  // ----- valid values -----

  predicate Digit(c: char) {
    '0' <= c <= '9'
  }

  predicate HexDigit(c: char) {
    '0' <= c <= '9' || 'a' <= c <= 'f' || 'A' <= c <= 'F'
  }

  predicate AllDigits(s: string) {
    forall i :: 0 <= i < |s| ==> Digit(s[i])
  }

  predicate AllHex(s: string) {
    forall i :: 0 <= i < |s| ==> HexDigit(s[i])
  }

  function SkipMinus(s: string): string {
    if s != "" && s[0] == '-' then s[1..] else s
  }

  function SkipHexPrefix(s: string): string {
    if |s| >= 2 && s[0] == '0' && (s[1] == 'x' || s[1] == 'X') then s[2..] else s
  }

  /** sym_string_valid: decimal without leading zeros, hexadecimal with or without prefix. */
  predicate Valid(t: SymType, s: string) {
    match t
    case String => true
    case Int => var d := SkipMinus(s); d != "" && AllDigits(d) && (d[0] == '0' ==> |d| == 1)
    case Hex => var d := SkipHexPrefix(s); d != "" && AllHex(d)
    case Boolean => s != "" && s[0] in "yYmMnN"
    case Tristate => s != "" && s[0] in "yYmMnN"
    case _ => false
  }

  // ----- reading -----

  /** What reading sets a symbol to; SetString also makes it a string symbol. */
  datatype Effect =
    | Nothing
    | SetTri(name: string, tri: Tri)
    | SetVal(name: string, val: string)
    | SetString(name: string, val: string)

  predicate Has(s: string, at: nat, what: string) {
    at + |what| <= |s| && s[at..at + |what|] == what
  }

  /** strchr: the first occurrence at or after `at`. */
  function Index(s: string, c: char, at: nat): (r: Option<nat>)
    requires at <= |s|
    ensures r.Some? ==> at <= r.value < |s| && s[r.value] == c && c !in s[at..r.value]
    ensures r.None? ==> c !in s[at..]
    decreases |s| - at
  {
    if at == |s| then None else if s[at] == c then Some(at) else Index(s, c, at + 1)
  }

  /** The value part of a line without its line end. */
  function Chomp(s: string): string {
    match Index(s, '\n', 0)
    case None => s
    case Some(k) => if k > 0 && s[k - 1] == '\r' then s[..k - 1] else s[..k]
  }

  function FirstOf(s: string): char {
    if s == "" then NUL else s[0]
  }

  /** conf_set_sym_val: what the text `p` behind the equals sign sets a symbol to. A quoted
      value of a symbol of unknown type is refused, an unquoted one makes it a string. */
  function SetSymVal(t: SymType, name: string, p: string): Effect {
    match t
    case Tristate => if FirstOf(p) == 'm' then SetTri(name, MOD) else SetYesNo(name, p)
    case Boolean => SetYesNo(name, p)
    case Other => if FirstOf(p) != '"' then SetString(name, p) else Nothing
    case String =>
      if FirstOf(p) != '"' then Nothing
      else (match Unescape(p[1..]) case None => Nothing case Some(v) => SetVal(name, v))
    case Unknown => Nothing
    case _ => if Valid(t, p) then SetVal(name, p) else Nothing
  }

  /** Its return value: 1 when the text was refused. A string symbol silently ignores text that
      does not start with a quote, and a symbol of unknown kind any text. */
  function SetSymRet(t: SymType, p: string): int {
    match t
    case Tristate => if FirstOf(p) in "ymn" then 0 else 1
    case Boolean => if FirstOf(p) in "yn" then 0 else 1
    case Other => if FirstOf(p) != '"' then 0 else 1
    case String => if FirstOf(p) == '"' && Unescape(p[1..]).None? then 1 else 0
    case Unknown => 0
    case _ => if Valid(t, p) then 0 else 1
  }

  function SetYesNo(name: string, p: string): Effect {
    if FirstOf(p) == 'y' then SetTri(name, YES) else if FirstOf(p) == 'n' then SetTri(name, NO) else Nothing
  }

  /** A comment line, from its third character on: "CONFIG_X is not set". */
  function ReadUnset(prefix: string, types: string -> Option<SymType>, s: string): Effect {
    if !Has(s, 0, prefix) then Nothing else
    var r := s[|prefix|..];
    match Index(r, ' ', 0)
    case None => Nothing
    case Some(k) =>
      if Has(r[k + 1..], 0, "is not set") && types(r[..k]).Some? && types(r[..k]).value in {Boolean, Tristate}
      then SetTri(r[..k], NO) else Nothing
  }

  /** "CONFIG_X=value". */
  function ReadSet(prefix: string, types: string -> Option<SymType>, s: string): Effect {
    if !Has(s, 0, prefix) then Nothing else
    var r := s[|prefix|..];
    match Index(r, '=', 0)
    case None => Nothing
    case Some(k) =>
      if types(r[..k]).None? then Nothing else SetSymVal(types(r[..k]).value, r[..k], Chomp(r[k + 1..]))
  }

  /** The body of the loop of conf_read_simple for the user's file; `types` looks a symbol up
      and `prefix` is CONFIG_ or what the environment puts in its place. */
  function ReadLine(prefix: string, types: string -> Option<SymType>, line: string): Effect {
    if line != "" && line[0] == '#' then
      if |line| == 1 then Nothing else ReadUnset(prefix, types, line[2..])
    else
      ReadSet(prefix, types, line)
  }

  // ----- printing -----

  /** kconfig_print_symbol, for the value that conf_write_symbol hands it. */
  function PrintLine(prefix: string, name: string, t: SymType, value: string): string {
    if (t == Boolean || t == Tristate) && FirstOf(value) == 'n' then "# " + prefix + name + " is not set\n"
    else prefix + name + "=" + (if t == String then Quoted(value) else value) + "\n"
  }

  // ----- round trip of one line -----

  predicate Ordinary(s: string) {
    forall i :: 0 <= i < |s| ==> s[i] != ' ' && s[i] != '=' && s[i] != '\n' && s[i] != '#' && s[i] != NUL
  }

  /** The values a symbol can have: y and n for a bool, m as well for a tristate, a valid
      number, or any text without line end or NUL. */
  predicate Possible(t: SymType, v: string) {
    match t
    case Boolean => v == "y" || v == "n"
    case Tristate => v == "y" || v == "m" || v == "n"
    case Int => Valid(Int, v)
    case Hex => Valid(Hex, v)
    case String => '\n' !in v && NUL !in v
    case _ => false
  }

  function TriOf(v: string): Tri {
    if v == "y" then YES else if v == "m" then MOD else NO
  }

  function Holds(name: string, t: SymType, v: string): Effect {
    if t == Boolean || t == Tristate then SetTri(name, TriOf(v)) else SetVal(name, v)
  }

  /** The text behind the equals sign. */
  function Printed(t: SymType, v: string): string {
    if t == String then Quoted(v) else v
  }

  lemma {:induction false} IndexIs(s: string, c: char, at: nat, k: nat)
    requires at <= k < |s| && s[k] == c && forall i :: at <= i < k ==> s[i] != c
    ensures Index(s, c, at) == Some(k)
    decreases k - at
  {
    if at < k {
      IndexIs(s, c, at + 1, k);
    }
  }

  /** What is printed has no line end, no NUL and no carriage return at its end. */
  lemma PrintedIsClean(t: SymType, v: string)
    requires Possible(t, v)
    ensures var p := Printed(t, v); p != "" && '\n' !in p && NUL !in p && p[|p| - 1] != '\r'
  {
    if t == String {
      EscapeAddsNothing(v, '\n');
      EscapeAddsNothing(v, NUL);
    } else if t == Int {
      assert v == SkipMinus(v) || v == ['-'] + SkipMinus(v);
    } else if t == Hex {
      assert v == SkipHexPrefix(v) || v == [v[0], v[1]] + SkipHexPrefix(v);
    }
  }

  lemma ValueRoundTrip(name: string, t: SymType, v: string)
    requires Possible(t, v)
    ensures SetSymVal(t, name, Printed(t, v)) == Holds(name, t, v)
  {
    if t == String {
      QuotedUndone(v);
    }
  }

  lemma QuotedUndone(v: string)
    ensures Quoted(v)[0] == '"' && Unescape(Quoted(v)[1..]) == Some(v)
  {
    assert Quoted(v)[1..] == Escape(v) + ['"'] + "";
    UnescapeUndoes(v, "");
  }

  lemma ChompPrinted(p: string)
    requires p != "" && '\n' !in p && p[|p| - 1] != '\r'
    ensures Chomp(p + "\n") == p
  {
    var s := p + "\n";
    IndexIs(s, '\n', 0, |p|);
    assert s[..|p|] == p;
  }

  /** Taking a line apart at the first `c` behind `a`. */
  lemma Apart(a: string, b: string, c: char, tail: string, s: string)
    requires c !in b && s == a + b + [c] + tail
    ensures Has(s, 0, a) && Index(s[|a|..], c, 0) == Some(|b|)
    ensures s[|a|..][..|b|] == b && s[|a|..][|b| + 1..] == tail
  {
    var r := s[|a|..];
    assert r == b + [c] + tail;
    IndexIs(r, c, 0, |b|);
  }

  lemma SetLine(prefix: string, types: string -> Option<SymType>, name: string, t: SymType, p: string)
    requires Ordinary(prefix) && Ordinary(name) && prefix + name != "" && types(name) == Some(t)
    requires p != "" && '\n' !in p && p[|p| - 1] != '\r'
    ensures ReadLine(prefix, types, prefix + name + "=" + p + "\n") == SetSymVal(t, name, p)
  {
    var line := prefix + name + "=" + p + "\n";
    Regroup(prefix + name + "=", p, "\n");
    Apart(prefix, name, '=', p + "\n", line);
    StartsOrdinary(prefix + name, line);
    ChompPrinted(p);
  }

  lemma Regroup(a: string, b: string, c: string)
    ensures a + b + c == a + (b + c)
  {
  }

  lemma StartsOrdinary(a: string, line: string)
    requires Ordinary(a) && a != "" && |a| <= |line| && line[..|a|] == a
    ensures line != "" && line[0] != '#'
  {
    assert line[0] == line[..|a|][0];
  }

  lemma UnsetLine(prefix: string, types: string -> Option<SymType>, name: string, t: SymType)
    requires Ordinary(prefix) && Ordinary(name) && types(name) == Some(t) && (t == Boolean || t == Tristate)
    ensures ReadLine(prefix, types, "# " + prefix + name + " is not set\n") == SetTri(name, NO)
  {
    var line, tail := "# " + prefix + name + " is not set\n", "is not set\n";
    assert " is not set\n" == [' '] + tail;
    assert line == "# " + (prefix + name + [' '] + tail);
    assert line[2..] == prefix + name + [' '] + tail;
    Apart(prefix, name, ' ', tail, line[2..]);
    assert Has(tail, 0, "is not set");
  }

  /** The printed line gives the symbol its value back. */
  lemma LineRoundTrip(prefix: string, types: string -> Option<SymType>, name: string, t: SymType, v: string)
    requires Ordinary(prefix) && Ordinary(name) && prefix + name != "" && types(name) == Some(t) && Possible(t, v)
    ensures ReadLine(prefix, types, PrintLine(prefix, name, t, v)) == Holds(name, t, v)
  {
    if (t == Boolean || t == Tristate) && v == "n" {
      UnsetLine(prefix, types, name, t);
    } else {
      PrintedIsClean(t, v);
      SetLine(prefix, types, name, t, Printed(t, v));
      ValueRoundTrip(name, t, v);
    }
  }

  // ----- round trip of a file -----

  datatype Setting = Setting(name: string, typ: SymType, value: string)

  /** What conf_write prints for a menu node: a symbol, or the heading of a menu or comment. */
  datatype Item = Entry(setting: Setting) | Heading(text: string)

  /** The text up to and including the next line end. */
  function NextLine(s: string): (r: string)
    ensures |r| <= |s| && (s != "" ==> r != "")
  {
    match Index(s, '\n', 0)
    case None => s
    case Some(k) => s[..k + 1]
  }

  /** A line as a C string: it ends at the first NUL. */
  function UptoNul(s: string): string {
    match Index(s, NUL, 0)
    case None => s
    case Some(k) => s[..k]
  }

  /** The lines of a file, each up to its first NUL. */
  function Lines(s: string): seq<string>
    decreases |s|
  {
    if s == "" then [] else [UptoNul(NextLine(s))] + Lines(s[|NextLine(s)|..])
  }

  /** All that reading a file does, in order. */
  function ReadAll(prefix: string, types: string -> Option<SymType>, s: string): seq<Effect>
    decreases |s|
  {
    if s == "" then [] else
      [ReadLine(prefix, types, UptoNul(NextLine(s)))] + ReadAll(prefix, types, s[|NextLine(s)|..])
  }

  function PrintItem(prefix: string, x: Item): string {
    match x
    case Entry(e) => PrintLine(prefix, e.name, e.typ, e.value)
    case Heading(text) => "\n" + ("#\n" + (("# " + text + "\n") + "#\n"))
  }

  function PrintAll(prefix: string, items: seq<Item>): string {
    if items == [] then "" else PrintItem(prefix, items[0]) + PrintAll(prefix, items[1..])
  }

  /** The settings among the items, as they are held. */
  function HoldAll(items: seq<Item>): seq<Effect> {
    if items == [] then []
    else
      var rest := HoldAll(items[1..]);
      if items[0].Heading? then rest
      else [Holds(items[0].setting.name, items[0].setting.typ, items[0].setting.value)] + rest
  }

  /** The lines that had an effect. */
  function Sets(effects: seq<Effect>): seq<Effect> {
    if effects == [] then []
    else if effects[0] == Nothing then Sets(effects[1..])
    else [effects[0]] + Sets(effects[1..])
  }

  /** The text of a heading is not read as a setting. */
  predicate Harmless(prefix: string, types: string -> Option<SymType>, text: string) {
    ReadUnset(prefix, types, text) == Nothing
  }

  ghost predicate Writable(prefix: string, types: string -> Option<SymType>, x: Item) {
    Ordinary(prefix) && match x
      case Entry(e) =>
        Ordinary(e.name) && prefix + e.name != "" && types(e.name) == Some(e.typ) && Possible(e.typ, e.value)
      case Heading(text) => '\n' !in text && NUL !in text
  }

  /** A whole line: one line end, at the end, and no NUL. */
  predicate OneLine(line: string) {
    line != "" && line[|line| - 1] == '\n' && NUL !in line && forall i :: 0 <= i < |line| - 1 ==> line[i] != '\n'
  }

  lemma LineIsOne(prefix: string, name: string, t: SymType, v: string)
    requires Ordinary(prefix) && Ordinary(name) && Possible(t, v)
    ensures OneLine(PrintLine(prefix, name, t, v))
  {
    PrintedIsClean(t, v);
    var line := PrintLine(prefix, name, t, v);
    if (t == Boolean || t == Tristate) && v == "n" {
      assert line == "# " + prefix + name + " is not set" + "\n";
    } else {
      assert line == prefix + name + "=" + Printed(t, v) + "\n";
    }
  }

  lemma NextLineIs(line: string, rest: string)
    requires OneLine(line)
    ensures NextLine(line + rest) == line && UptoNul(line) == line && (line + rest)[|line|..] == rest
  {
    IndexIs(line + rest, '\n', 0, |line| - 1);
    assert (line + rest)[..|line|] == line;
    assert line[0..] == line;
  }

  /** The first line of a text and the rest. */
  lemma ReadFirst(prefix: string, types: string -> Option<SymType>, line: string, rest: string)
    requires OneLine(line)
    ensures ReadAll(prefix, types, line + rest) == [ReadLine(prefix, types, line)] + ReadAll(prefix, types, rest)
  {
    NextLineIs(line, rest);
  }

  lemma SetsFirst(e: Effect, rest: seq<Effect>)
    ensures Sets([e] + rest) == if e == Nothing then Sets(rest) else [e] + Sets(rest)
  {
    assert ([e] + rest)[1..] == rest;
  }

  /** "CONFIG_X is not set" with something behind it. */
  ghost predicate LooksUnset(prefix: string, types: string -> Option<SymType>, s: string, name: string) {
    && ' ' !in name && Has(s, 0, prefix + name + " is not set")
    && types(name).Some? && types(name).value in {Boolean, Tristate}
  }

  lemma UnsetName(prefix: string, types: string -> Option<SymType>, s: string, name: string)
    requires LooksUnset(prefix, types, s, name)
    ensures ReadUnset(prefix, types, s) == SetTri(name, NO)
  {
    var what := prefix + name + " is not set";
    var tail := s[|what|..];
    assert s == prefix + name + [' '] + ("is not set" + tail) by {
      assert s == s[0..|what|] + tail;
    }
    Apart(prefix, name, ' ', "is not set" + tail, s);
    assert Has("is not set" + tail, 0, "is not set");
  }

  /** A heading is harmless if and only if its text does not start like the line of an unset bool
      or tristate symbol. */
  lemma HarmlessIff(prefix: string, types: string -> Option<SymType>, text: string)
    ensures Harmless(prefix, types, text) <==> !exists name :: LooksUnset(prefix, types, text, name)
  {
    if name :| LooksUnset(prefix, types, text, name) {
      UnsetName(prefix, types, text, name);
    } else if !Harmless(prefix, types, text) {
      var r := text[|prefix|..];
      var k := Index(r, ' ', 0).value;
      Spelt(prefix, r[..k], r[k + 1..], text);
      assert r[0..k] == r[..k];
      assert LooksUnset(prefix, types, text, r[..k]);
    }
  }

  lemma Spelt(prefix: string, name: string, tail: string, text: string)
    requires Has(text, 0, prefix) && |name| < |text| - |prefix| && Has(tail, 0, "is not set")
    requires text[|prefix|..][..|name|] == name && text[|prefix|..][|name|] == ' ' && text[|prefix|..][|name| + 1..] == tail
    ensures Has(text, 0, prefix + name + " is not set")
  {
    var what, r := prefix + name + " is not set", text[|prefix|..];
    assert " is not set"[1..] == "is not set";
    forall i | 0 <= i < |what| ensures text[i] == what[i] {
      SpeltAt(prefix, name, tail, text, r, i);
    }
    assert text[0..|what|] == what;
  }

  lemma SpeltAt(prefix: string, name: string, tail: string, text: string, r: string, i: nat)
    requires Has(text, 0, prefix) && r == text[|prefix|..] && |name| < |r| && Has(tail, 0, "is not set")
    requires r[..|name|] == name && r[|name|] == ' ' && r[|name| + 1..] == tail && i < |prefix| + |name| + 11
    ensures |text| >= |prefix| + |name| + 11 && text[i] == (prefix + name + " is not set")[i]
  {
    var j := i - |prefix|;
    if j < 0 {
      assert text[i] == text[0..|prefix|][i];
    } else if j < |name| {
      assert text[i] == r[j] == r[..|name|][j];
    } else if j > |name| {
      assert text[i] == r[j] == tail[j - |name| - 1] == tail[0..10][j - |name| - 1];
    }
  }

  /** What a heading's own line has as its effect: the line end behind the text changes nothing. */
  lemma HeadingLine(prefix: string, types: string -> Option<SymType>, text: string)
    requires '\n' !in text && Ordinary(prefix)
    ensures ReadLine(prefix, types, "# " + text + "\n") == ReadUnset(prefix, types, text)
  {
    var line := "# " + text + "\n";
    assert line[2..] == text + "\n";
    HarmlessIff(prefix, types, text);
    HarmlessIff(prefix, types, text + "\n");
    if name :| LooksUnset(prefix, types, text + "\n", name) {
      LineEndApart(prefix, types, text, name);
      UnsetName(prefix, types, text, name);
      UnsetName(prefix, types, text + "\n", name);
    } else if name :| LooksUnset(prefix, types, text, name) {
      LineEndApart(prefix, types, text, name);
    }
  }

  lemma LineEndApart(prefix: string, types: string -> Option<SymType>, text: string, name: string)
    requires '\n' !in text
    ensures LooksUnset(prefix, types, text + "\n", name) <==> LooksUnset(prefix, types, text, name)
  {
    var what := prefix + name + " is not set";
    if |what| <= |text| {
      assert text[0..|what|] == (text + "\n")[0..|what|];
    } else {
      assert what[|what| - 1] == 't' && (text + "\n")[|text|] == '\n';
    }
  }

  lemma PlainLines(prefix: string, types: string -> Option<SymType>)
    requires Ordinary(prefix)
    ensures ReadLine(prefix, types, "\n") == Nothing && ReadLine(prefix, types, "#\n") == Nothing
  {
    if prefix != "" {
      assert prefix[0] != '\n';
      assert !Has("\n", 0, prefix);
    }
  }

  lemma HeadingRead(prefix: string, types: string -> Option<SymType>, text: string, rest: string)
    requires Writable(prefix, types, Heading(text))
    ensures Sets(ReadAll(prefix, types, PrintItem(prefix, Heading(text)) + rest)) ==
            Sets([ReadUnset(prefix, types, text)]) + Sets(ReadAll(prefix, types, rest))
  {
    var line := "# " + text + "\n";
    PlainLines(prefix, types);
    HeadingLine(prefix, types, text);
    InParts("\n", "#\n", line, "#\n", rest);
    FourLines(prefix, types, "\n", "#\n", line, "#\n", rest);
  }

  lemma InParts(a: string, b: string, c: string, d: string, rest: string)
    ensures (a + (b + (c + d))) + rest == a + (b + (c + (d + rest)))
  {
  }

  lemma FourLines(prefix: string, types: string -> Option<SymType>, a: string, b: string, c: string, d: string, rest: string)
    requires OneLine(a) && OneLine(b) && OneLine(c) && OneLine(d)
    requires ReadLine(prefix, types, a) == ReadLine(prefix, types, b) == ReadLine(prefix, types, d) == Nothing
    ensures Sets(ReadAll(prefix, types, a + (b + (c + (d + rest))))) ==
            Sets([ReadLine(prefix, types, c)]) + Sets(ReadAll(prefix, types, rest))
  {
    NothingFirst(prefix, types, d, rest);
    OneFirst(prefix, types, c, d + rest);
    NothingFirst(prefix, types, b, c + (d + rest));
    NothingFirst(prefix, types, a, b + (c + (d + rest)));
  }

  lemma OneFirst(prefix: string, types: string -> Option<SymType>, line: string, rest: string)
    requires OneLine(line)
    ensures Sets(ReadAll(prefix, types, line + rest)) == Sets([ReadLine(prefix, types, line)]) + Sets(ReadAll(prefix, types, rest))
  {
    var e := ReadLine(prefix, types, line);
    ReadFirst(prefix, types, line, rest);
    SetsFirst(e, ReadAll(prefix, types, rest));
    SetsFirst(e, []);
    assert [e] + [] == [e];
  }

  lemma NothingFirst(prefix: string, types: string -> Option<SymType>, line: string, rest: string)
    requires OneLine(line) && ReadLine(prefix, types, line) == Nothing
    ensures Sets(ReadAll(prefix, types, line + rest)) == Sets(ReadAll(prefix, types, rest))
  {
    ReadFirst(prefix, types, line, rest);
    SetsFirst(Nothing, ReadAll(prefix, types, rest));
  }

  lemma EntryRead(prefix: string, types: string -> Option<SymType>, e: Setting, rest: string)
    requires Writable(prefix, types, Entry(e))
    ensures Sets(ReadAll(prefix, types, PrintItem(prefix, Entry(e)) + rest)) ==
      [Holds(e.name, e.typ, e.value)] + Sets(ReadAll(prefix, types, rest))
  {
    LineIsOne(prefix, e.name, e.typ, e.value);
    LineRoundTrip(prefix, types, e.name, e.typ, e.value);
    ReadFirst(prefix, types, PrintLine(prefix, e.name, e.typ, e.value), rest);
    SetsFirst(Holds(e.name, e.typ, e.value), ReadAll(prefix, types, rest));
  }

  /** What the items give when they are read back: the settings, and what the headings that are not
      harmless are taken for. */
  function ReadBack(prefix: string, types: string -> Option<SymType>, items: seq<Item>): seq<Effect> {
    if items == [] then []
    else
      var rest := ReadBack(prefix, types, items[1..]);
      match items[0]
      case Entry(e) => [Holds(e.name, e.typ, e.value)] + rest
      case Heading(text) => Sets([ReadUnset(prefix, types, text)]) + rest
  }

  /** Reading back what was written, whatever the headings are. */
  lemma {:induction false} FileReads(prefix: string, types: string -> Option<SymType>, items: seq<Item>)
    requires forall i :: 0 <= i < |items| ==> Writable(prefix, types, items[i])
    ensures Sets(ReadAll(prefix, types, PrintAll(prefix, items))) == ReadBack(prefix, types, items)
  {
    if items != [] {
      var x, rest := items[0], PrintAll(prefix, items[1..]);
      assert Writable(prefix, types, x);
      FileReads(prefix, types, items[1..]);
      match x
      case Entry(e) => EntryRead(prefix, types, e, rest);
      case Heading(text) => HeadingRead(prefix, types, text, rest);
    }
  }

  ghost predicate AllHarmless(prefix: string, types: string -> Option<SymType>, items: seq<Item>) {
    forall i :: 0 <= i < |items| && items[i].Heading? ==> Harmless(prefix, types, items[i].text)
  }

  /** Every heading that is not harmless adds an effect. */
  lemma {:induction false} HeadingsAdd(prefix: string, types: string -> Option<SymType>, items: seq<Item>)
    ensures |ReadBack(prefix, types, items)| >= |HoldAll(items)|
    ensures |ReadBack(prefix, types, items)| == |HoldAll(items)| <==> AllHarmless(prefix, types, items)
    ensures AllHarmless(prefix, types, items) ==> ReadBack(prefix, types, items) == HoldAll(items)
  {
    if items != [] {
      HeadingsAdd(prefix, types, items[1..]);
      assert items == [items[0]] + items[1..];
      if items[0].Heading? {
        SetsFirst(ReadUnset(prefix, types, items[0].text), []);
        assert [ReadUnset(prefix, types, items[0].text)] + [] == [ReadUnset(prefix, types, items[0].text)];
      }
    }
  }

  /** Reading back what was written gives every symbol its value, in order, and nothing else, if and
      only if the headings are harmless. */
  lemma FileRoundTrip(prefix: string, types: string -> Option<SymType>, items: seq<Item>)
    requires forall i :: 0 <= i < |items| ==> Writable(prefix, types, items[i])
    ensures Sets(ReadAll(prefix, types, PrintAll(prefix, items))) == HoldAll(items) <==> AllHarmless(prefix, types, items)
  {
    FileReads(prefix, types, items);
    HeadingsAdd(prefix, types, items);
  }

  lemma ReadBackTwo(prefix: string, types: string -> Option<SymType>, e: Setting, text: string)
    ensures ReadBack(prefix, types, [Entry(e), Heading(text)]) ==
            [Holds(e.name, e.typ, e.value)] + Sets([ReadUnset(prefix, types, text)])
  {
    var items, last := [Entry(e), Heading(text)], [Heading(text)];
    assert items[1..] == last && last[1..] == [];
    assert ReadBack(prefix, types, last) == Sets([ReadUnset(prefix, types, text)]) + [];
  }

  lemma TakenForUnset(prefix: string, types: string -> Option<SymType>, name: string, text: string)
    requires types(name) == Some(Boolean) && Ordinary(name) && text == prefix + name + " is not set"
    ensures Sets([ReadUnset(prefix, types, text)]) == [SetTri(name, NO)]
  {
    assert text[0..|text|] == text;
    UnsetName(prefix, types, text, name);
    SetsFirst(SetTri(name, NO), []);
    assert [SetTri(name, NO)] + [] == [SetTri(name, NO)];
  }

  lemma UnsetText(prefix: string, name: string, text: string)
    requires Ordinary(prefix) && Ordinary(name) && text == prefix + name + " is not set"
    ensures '\n' !in text && NUL !in text
  {
  }

  /** A symbol that is y, followed by a menu that is called like the line of its being unset, is n
      when the file has been read back. */
  lemma HeadingUnsets(prefix: string, types: string -> Option<SymType>, name: string, text: string)
    requires Ordinary(prefix) && Ordinary(name) && prefix + name != "" && types(name) == Some(Boolean)
    requires text == prefix + name + " is not set"
    ensures var items := [Entry(Setting(name, Boolean, "y")), Heading(text)];
            Sets(ReadAll(prefix, types, PrintAll(prefix, items))) == [SetTri(name, YES), SetTri(name, NO)]
  {
    UnsetText(prefix, name, text);
    TakenForUnset(prefix, types, name, text);
    TwoRead(prefix, types, Setting(name, Boolean, "y"), text);
  }

  lemma TwoRead(prefix: string, types: string -> Option<SymType>, e: Setting, text: string)
    requires Writable(prefix, types, Entry(e)) && Writable(prefix, types, Heading(text))
    ensures Sets(ReadAll(prefix, types, PrintAll(prefix, [Entry(e), Heading(text)]))) ==
            [Holds(e.name, e.typ, e.value)] + Sets([ReadUnset(prefix, types, text)])
  {
    FileReads(prefix, types, [Entry(e), Heading(text)]);
    ReadBackTwo(prefix, types, e, text);
  }
}
