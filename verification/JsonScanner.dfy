/**
 The hand-written scanner that cuts a JSON object out of free text.

 `ExtractJsonObject` is the loop of the source. `IsExtract` says what it returns without a loop, and
 the main lemma shows that an object printed by the grammar of RFC 8259 comes back whole.
 */
module JsonScanner {
  import opened Text

  const MARKER := "\"codex_stepwise\""

  // ---------------------------------------------------------------------------------------------
  // Finding the marker and its opening brace

  function SkipSpaces(s: string, from: nat): (to: nat)
    requires from <= |s|
    ensures from <= to <= |s|
    ensures forall i :: from <= i < to ==> IsJsSpace(s[i])
    ensures to < |s| ==> !IsJsSpace(s[to])
    decreases |s| - from
  {
    if from < |s| && IsJsSpace(s[from]) then SkipSpaces(s, from + 1) else from
  }

  /** The regular expression matches at position `i`: the quoted marker, a colon and `true`. */
  predicate MarkerAt(s: string, i: nat) {
    && i + |MARKER| <= |s|
    && s[i..i + |MARKER|] == MARKER
    && var colon := SkipSpaces(s, i + |MARKER|);
    && colon < |s|
    && s[colon] == ':'
    && var value := SkipSpaces(s, colon + 1);
    && value + 4 <= |s|
    && s[value..value + 4] == "true"
  }

  /** `search`: the first match, or -1. */
  function Search(s: string, from: nat): (i: int)
    requires from <= |s|
    ensures i == -1 || (from <= i < |s| && MarkerAt(s, i))
    ensures forall j :: from <= j < (if i == -1 then |s| else i) ==> !MarkerAt(s, j)
    decreases |s| - from
  {
    if from == |s| then -1
    else if MarkerAt(s, from) then from
    else Search(s, from + 1)
  }

  /** `lastIndexOf("{", from)`: the last brace at or before `from`, or -1. */
  function LastBrace(s: string, from: int): (i: int)
    requires -1 <= from < |s|
    ensures -1 <= i <= from && (i >= 0 ==> s[i] == '{')
    ensures forall j :: i < j <= from ==> s[j] != '{'
    decreases from
  {
    if from < 0 || s[from] == '{' then from else LastBrace(s, from - 1)
  }

  // ---------------------------------------------------------------------------------------------
  // The scanner's state

  datatype Mode = Mode(depth: int, inString: bool, escaped: bool)

  const START := Mode(0, false, false)

  function Step(m: Mode, c: char): Mode {
    if m.escaped then m.(escaped := false)
    else if c == '\\' then m.(escaped := true)
    else if c == '\"' then m.(inString := !m.inString)
    else if m.inString then m
    else if c == '{' then m.(depth := m.depth + 1)
    else if c == '}' then m.(depth := m.depth - 1)
    else m
  }

  /** The character stands outside strings and escapes and leaves the depth at zero. */
  predicate Closes(m: Mode, c: char) {
    !m.escaped && !m.inString && c != '\\' && c != '\"' && Step(m, c).depth == 0
  }

  function Run(m: Mode, s: string): Mode
    decreases |s|
  {
    if s == "" then m else Run(Step(m, s[0]), s[1..])
  }

  /** The object opened by the first character of `s` is closed by its character `k`, and not before. */
  ghost predicate FirstClose(s: string, k: nat) {
    && k < |s|
    && Closes(Run(START, s[..k]), s[k])
    && forall j :: 0 <= j < k ==> !Closes(Run(START, s[..j]), s[j])
  }

  /** What extraction returns: from the marker's opening brace up to the first return to depth zero. */
  ghost predicate IsExtract(text: string, r: string) {
    var marker := Search(text, 0);
    var start := LastBrace(text, marker);
    if marker < 0 || start < 0 then r == ""
    else
      var s := text[start..];
      || (r != "" && r <= s && FirstClose(s, |r| - 1))
      || (r == "" && forall k :: !FirstClose(s, k))
  }

  lemma {:induction false} RunSplit(m: Mode, a: string, b: string)
    ensures Run(m, a + b) == Run(Run(m, a), b)
    decreases |a|
  {
    if a == "" {
      assert a + b == b;
    } else {
      assert (a + b)[0] == a[0] && (a + b)[1..] == a[1..] + b;
      RunSplit(Step(m, a[0]), a[1..], b);
    }
  }

  lemma RunNothing(m: Mode)
    ensures Run(m, "") == m
  {}

  lemma RunOneMore(s: string, k: nat)
    requires k < |s|
    ensures Run(START, s[..k + 1]) == Step(Run(START, s[..k]), s[k])
  {
    assert s[..k + 1] == s[..k] + [s[k]];
    RunSplit(START, s[..k], [s[k]]);
    assert Run(Step(Run(START, s[..k]), s[k]), "") == Step(Run(START, s[..k]), s[k]);
  }

  method ExtractJsonObject(text: string) returns (r: string)
    ensures IsExtract(text, r)
  {
    hide Run, MarkerAt, NoCloseYet, FirstClose;
    var marker := Search(text, 0);
    if marker < 0 {
      return "";
    }
    var start := LastBrace(text, marker);
    if start < 0 {
      return "";
    }
    var depth, inString, escaped := 0, false, false;
    ghost var s := text[start..];
    var index := start;
    RunNothing(START);
    assert s[..0] == "";
    NothingCloses(s);
    while index < |text|
      invariant start <= index <= |text|
      invariant Mode(depth, inString, escaped) == Run(START, s[..index - start])
      invariant NoCloseYet(s, index - start)
    {
      var c := text[index];
      ghost var k := index - start;
      RunOneMore(s, k);
      NoCloseMore(s, k);
      index := index + 1;
      if escaped {
        escaped := false;
        continue;
      }
      if c == '\\' {
        escaped := true;
        continue;
      }
      if c == '\"' {
        inString := !inString;
        continue;
      }
      if inString {
        continue;
      }
      if c == '{' {
        depth := depth + 1;
      }
      if c == '}' {
        depth := depth - 1;
      }
      if depth == 0 {
        assert text[start..index] == s[..k + 1];
        return text[start..index];
      }
    }
    NeverCloses(s);
    return "";
  }

  ghost predicate NoCloseYet(s: string, k: nat)
    requires k <= |s|
  {
    forall j :: 0 <= j < k ==> !Closes(Run(START, s[..j]), s[j])
  }

  lemma NothingCloses(s: string)
    ensures NoCloseYet(s, 0)
  {}

  lemma NoCloseMore(s: string, k: nat)
    requires k < |s| && NoCloseYet(s, k)
    ensures Closes(Run(START, s[..k]), s[k]) ==> FirstClose(s, k)
    ensures !Closes(Run(START, s[..k]), s[k]) ==> NoCloseYet(s, k + 1)
  {}

  lemma NeverCloses(s: string)
    requires NoCloseYet(s, |s|)
    ensures forall k :: !FirstClose(s, k)
  {}

  /** There is only one answer, so the method computes exactly what `IsExtract` describes. */
  lemma ExtractUnique(text: string, r1: string, r2: string)
    requires IsExtract(text, r1) && IsExtract(text, r2)
    ensures r1 == r2
  {
    var start := LastBrace(text, Search(text, 0));
    if r1 != "" && r2 != "" {
      assert !(|r1| < |r2|) && !(|r2| < |r1|);
    }
  }

  // ---------------------------------------------------------------------------------------------
  // JSON texts, with the white space they were printed with (RFC 8259, sections 2 to 7)

  datatype Symbol = Plain(c: char) | Escaped(c: char) | CodePoint(hex: string)

  datatype Json =
    | Literal(word: string)
    | Number(digits: string)
    | Quoted(symbols: seq<Symbol>)
    | Array(items: Items)
    | Object(members: Members)

  datatype Items = LastGap(gap: string) | Item(before: string, value: Json, after: string, more: Items)

  datatype Members =
    | EndGap(gap: string)
    | Member(before: string, name: seq<Symbol>, after: string, gap: string, value: Json, end: string, more: Members)

  function PrintSymbol(c: Symbol): string {
    match c
    case Plain(c) => [c]
    case Escaped(c) => ['\\', c]
    case CodePoint(hex) => "\\u" + hex
  }

  function PrintSymbols(cs: seq<Symbol>): string {
    if cs == [] then "" else PrintSymbol(cs[0]) + PrintSymbols(cs[1..])
  }

  function PrintString(cs: seq<Symbol>): string { "\"" + PrintSymbols(cs) + "\"" }

  function Print(j: Json): string {
    match j
    case Literal(word) => word
    case Number(digits) => digits
    case Quoted(symbols) => PrintString(symbols)
    case Array(items) => "[" + PrintItems(items) + "]"
    case Object(members) => "{" + PrintMembers(members) + "}"
  }

  function PrintItems(items: Items): string {
    match items
    case LastGap(gap) => gap
    case Item(before, value, after, more) =>
      before + Print(value) + after + (if more.Item? then "," else "") + PrintItems(more)
  }

  function PrintMembers(members: Members): string {
    match members
    case EndGap(gap) => gap
    case Member(before, name, after, gap, value, end, more) =>
      before + (PrintString(name) + after + ":" + gap + Print(value)
                + (end + (if more.Member? then "," else "") + PrintMembers(more)))
  }

  predicate AllIn(s: string, chars: string) { forall c <- s :: c in chars }

  predicate Gap(s: string) { AllIn(s, " \t\n\r") }

  predicate ValidSymbol(c: Symbol) {
    match c
    case Plain(c) => c >= ' ' && c != '\"' && c != '\\'
    case Escaped(c) => c in "\"\\/bfnrt"
    case CodePoint(hex) => |hex| == 4 && AllIn(hex, "0123456789abcdefABCDEF")
  }

  predicate ValidSymbols(cs: seq<Symbol>) { forall c <- cs :: ValidSymbol(c) }

  predicate Valid(j: Json) {
    match j
    case Literal(word) => word in ["true", "false", "null"]
    case Number(digits) => AllIn(digits, "0123456789+-.eE")
    case Quoted(symbols) => ValidSymbols(symbols)
    case Array(items) => ValidItems(items)
    case Object(members) => ValidMembers(members)
  }

  predicate ValidItems(items: Items) {
    match items
    case LastGap(gap) => Gap(gap)
    case Item(before, value, after, more) => Gap(before) && Valid(value) && Gap(after) && ValidItems(more)
  }

  predicate ValidMembers(members: Members) {
    match members
    case EndGap(gap) => Gap(gap)
    case Member(before, name, after, gap, value, end, more) =>
      && Gap(before) && ValidSymbols(name) && Gap(after) && Gap(gap) && Valid(value) && Gap(end)
      && ValidMembers(more)
  }

  // ---------------------------------------------------------------------------------------------
  // The scanner passes over every printed value and comes back to the mode it came with

  predicate Quiet(m: Mode, s: string)
    decreases |s|
  {
    s == "" || (!Closes(m, s[0]) && Quiet(Step(m, s[0]), s[1..]))
  }

  ghost predicate Passes(m: Mode, s: string, n: Mode) { Run(m, s) == n && Quiet(m, s) }

  lemma {:induction false} PassesSplit(m: Mode, a: string, n: Mode, b: string, o: Mode)
    requires Passes(m, a, n) && Passes(n, b, o)
    ensures Passes(m, a + b, o)
    decreases |a|
  {
    if a == "" {
      assert a + b == b;
    } else {
      assert (a + b)[0] == a[0] && (a + b)[1..] == a[1..] + b;
      PassesSplit(Step(m, a[0]), a[1..], n, b, o);
    }
  }

  lemma PassesChar(m: Mode, c: char)
    requires !Closes(m, c)
    ensures Passes(m, [c], Step(m, c))
  {
    assert Run(Step(m, c), "") == Step(m, c);
  }

  /** Outside strings and inside at least one object. */
  ghost predicate Inside(m: Mode) { m.depth >= 1 && !m.inString && !m.escaped }

  lemma {:induction false} PlainPasses(m: Mode, s: string)
    requires Inside(m) && forall c <- s :: c !in "{}\"\\"
    ensures Passes(m, s, m)
  {
    if s != "" {
      assert s[0] in s;
      PlainPasses(m, s[1..]);
    }
  }

  lemma {:induction false} SymbolsPass(m: Mode, cs: seq<Symbol>)
    requires m.inString && !m.escaped && ValidSymbols(cs)
    ensures Passes(m, PrintSymbols(cs), m)
  {
    if cs != [] {
      SymbolsPass(m, cs[1..]);
      var c := cs[0];
      assert ValidSymbol(c);
      if c.CodePoint? {
        PassesChar(m, '\\');
        PassesChar(m.(escaped := true), 'u');
        PassesSplit(m, "\\", m.(escaped := true), "u", m);
        assert "\\" + "u" == "\\u";
        HexPasses(m, c.hex);
        PassesSplit(m, "\\u", m, c.hex, m);
      } else if c.Escaped? {
        PassesChar(m, '\\');
        PassesChar(m.(escaped := true), c.c);
        PassesSplit(m, "\\", m.(escaped := true), [c.c], m);
        assert "\\" + [c.c] == PrintSymbol(c);
      } else {
        PassesChar(m, c.c);
      }
      PassesSplit(m, PrintSymbol(c), m, PrintSymbols(cs[1..]), m);
    }
  }

  lemma {:induction false} HexPasses(m: Mode, s: string)
    requires m.inString && !m.escaped && AllIn(s, "0123456789abcdefABCDEF")
    ensures Passes(m, s, m)
  {
    if s != "" {
      assert s[0] in s;
      HexPasses(m, s[1..]);
    }
  }

  lemma StringPasses(m: Mode, cs: seq<Symbol>)
    requires Inside(m) && ValidSymbols(cs)
    ensures Passes(m, PrintString(cs), m)
  {
    var quoted := m.(inString := true);
    PassesChar(m, '\"');
    SymbolsPass(quoted, cs);
    PassesChar(quoted, '\"');
    PassesSplit(m, "\"", quoted, PrintSymbols(cs), quoted);
    PassesSplit(m, "\"" + PrintSymbols(cs), quoted, "\"", m);
  }

  lemma LiteralIsPlain(s: string)
    requires s in ["true", "false", "null"]
    ensures forall c <- s :: c !in "{}\"\\"
  {}

  lemma NumberIsPlain(s: string)
    requires AllIn(s, "0123456789+-.eE")
    ensures forall c <- s :: c !in "{}\"\\"
  {}

  lemma PassesThree(m: Mode, a: string, n: Mode, b: string, o: Mode, c: string, p: Mode)
    requires Passes(m, a, n) && Passes(n, b, o) && Passes(o, c, p)
    ensures Passes(m, a + b + c, p)
  {
    PassesSplit(m, a, n, b, o);
    PassesSplit(m, a + b, o, c, p);
  }

  lemma {:induction false} ValuePasses(m: Mode, j: Json)
    requires Inside(m) && Valid(j)
    ensures Passes(m, Print(j), m)
    decreases j
  {
    hide Run, Quiet;
    match j {
      case Literal(word) => LiteralIsPlain(word); PlainPasses(m, word);
      case Number(digits) => NumberIsPlain(digits); PlainPasses(m, digits);
      case Quoted(symbols) => StringPasses(m, symbols);
      case Array(items) =>
        PassesChar(m, '[');
        ItemsPass(m, items);
        PassesChar(m, ']');
        PassesThree(m, "[", m, PrintItems(items), m, "]", m);
      case Object(members) =>
        var deeper := m.(depth := m.depth + 1);
        PassesChar(m, '{');
        MembersPass(deeper, members);
        PassesChar(deeper, '}');
        PassesThree(m, "{", deeper, PrintMembers(members), deeper, "}", m);
    }
  }

  lemma {:induction false} ItemsPass(m: Mode, items: Items)
    requires Inside(m) && ValidItems(items)
    ensures Passes(m, PrintItems(items), m)
    decreases items
  {
    hide Run, Quiet;
    match items {
      case LastGap(gap) => PlainPasses(m, gap);
      case Item(before, value, after, more) =>
        var comma := if more.Item? then "," else "";
        PlainPasses(m, before);
        ValuePasses(m, value);
        PlainPasses(m, after);
        PlainPasses(m, comma);
        ItemsPass(m, more);
        PassesThree(m, before, m, Print(value), m, after, m);
        PassesThree(m, before + Print(value) + after, m, comma, m, PrintItems(more), m);
    }
  }

  lemma {:induction false} MembersPass(m: Mode, members: Members)
    requires Inside(m) && ValidMembers(members)
    ensures Passes(m, PrintMembers(members), m)
    decreases members
  {
    hide Run, Quiet;
    match members {
      case EndGap(gap) => PlainPasses(m, gap);
      case Member(before, name, after, gap, value, end, more) =>
        var comma := if more.Member? then "," else "";
        PlainPasses(m, before);
        StringPasses(m, name);
        PlainPasses(m, after);
        PlainPasses(m, ":");
        PlainPasses(m, gap);
        ValuePasses(m, value);
        PlainPasses(m, end);
        PlainPasses(m, comma);
        MembersPass(m, more);
        PassesThree(m, PrintString(name), m, after, m, ":", m);
        PassesThree(m, PrintString(name) + after + ":", m, gap, m, Print(value), m);
        PassesThree(m, end, m, comma, m, PrintMembers(more), m);
        var pair := PrintString(name) + after + ":" + gap + Print(value);
        PassesSplit(m, pair, m, end + comma + PrintMembers(more), m);
        PassesSplit(m, before, m, pair + (end + comma + PrintMembers(more)), m);
    }
  }

  // ---------------------------------------------------------------------------------------------
  // Main result

  /** A payload: an object whose first member is the marker with the value `true`. */
  ghost predicate IsPayload(j: Json) {
    && j.Object? && Valid(j)
    && j.members.Member?
    && PrintString(j.members.name) == MARKER
    && j.members.value == Literal("true")
  }

  lemma {:induction false} QuietMeansNoClose(m: Mode, s: string, k: nat)
    requires Quiet(m, s) && k < |s|
    ensures !Closes(Run(m, s[..k]), s[k])
    decreases |s|
  {
    if k > 0 {
      QuietMeansNoClose(Step(m, s[0]), s[1..], k - 1);
      assert s[..k][1..] == s[1..][..k - 1];
    }
  }

  lemma ObjectClosesAtItsEnd(j: Json, rest: string)
    requires j.Object? && Valid(j)
    ensures FirstClose(Print(j) + rest, |Print(j)| - 1)
  {
    var inside := START.(depth := 1);
    var body := "{" + PrintMembers(j.members);
    var s := Print(j) + rest;
    PassesChar(START, '{');
    MembersPass(inside, j.members);
    PassesSplit(START, "{", inside, PrintMembers(j.members), inside);
    assert s[..|body|] == body && s[|body|] == '}';
    forall k | 0 <= k < |body|
      ensures !Closes(Run(START, s[..k]), s[k])
    {
      QuietMeansNoClose(START, body, k);
      assert s[..k] == body[..k];
    }
  }

  lemma {:induction false} SkipExactly(s: string, from: nat, to: nat)
    requires from <= to <= |s| && forall i :: from <= i < to ==> IsJsSpace(s[i])
    requires to < |s| ==> !IsJsSpace(s[to])
    ensures SkipSpaces(s, from) == to
    decreases |s| - from
  {
    if from < to {
      SkipExactly(s, from + 1, to);
    }
  }

  lemma GapIsSpace(s: string)
    requires Gap(s)
    ensures forall c <- s :: IsJsSpace(c) && c != '{' && c != '\"'
  {}

  /** A match with its colon and its value located. */
  ghost predicate Shape(text: string, i: nat, colon: nat, value: nat) {
    && i + |MARKER| <= colon < value && value + 4 <= |text|
    && text[i..i + |MARKER|] == MARKER
    && (forall k :: i + |MARKER| <= k < colon ==> IsJsSpace(text[k]))
    && text[colon] == ':'
    && (forall k :: colon < k < value ==> IsJsSpace(text[k]))
    && text[value..value + 4] == "true"
  }

  lemma MarksAreNoSpaces()
    ensures !IsJsSpace(':') && !IsJsSpace('t')
  {}

  lemma ShapeMatches(text: string, i: nat, colon: nat, value: nat)
    requires Shape(text, i, colon, value)
    ensures MarkerAt(text, i)
  {
    hide IsJsSpace;
    MarksAreNoSpaces();
    SkipExactly(text, i + |MARKER|, colon);
    assert text[value] == text[value..value + 4][0];
    SkipExactly(text, colon + 1, value);
  }

  lemma MatchHasShape(text: string, i: nat) returns (colon: nat, value: nat)
    requires MarkerAt(text, i)
    ensures Shape(text, i, colon, value)
  {
    colon := SkipSpaces(text, i + |MARKER|);
    value := SkipSpaces(text, colon + 1);
  }

  /** The expression matches exactly the quoted name, a colon and `true`, with any blanks between. */
  lemma MarkerIff(text: string, i: nat)
    ensures MarkerAt(text, i) <==> exists colon: nat, value: nat :: Shape(text, i, colon, value)
  {
    hide MarkerAt, Shape;
    if MarkerAt(text, i) {
      var colon, value := MatchHasShape(text, i);
    }
    if colon: nat, value: nat :| Shape(text, i, colon, value) {
      ShapeMatches(text, i, colon, value);
    }
  }

  lemma ShapeAvoidsBraces(text: string, i: nat, colon: nat, value: nat, k: nat)
    requires Shape(text, i, colon, value) && i <= k < value + 4
    ensures text[k] != '{'
  {
    if k < i + |MARKER| {
      assert text[k] == text[i..i + |MARKER|][k - i] == MARKER[k - i];
    } else if k >= value {
      assert text[k] == text[value..value + 4][k - value] == "true"[k - value];
    }
  }

  /** A match that starts before a brace ends before it, so it is a match of the text before the brace. */
  lemma MatchStaysBeforeBrace(text: string, cut: nat, i: nat)
    requires cut < |text| && text[cut] == '{' && i < cut && MarkerAt(text, i)
    ensures MarkerAt(text[..cut], i)
  {
    hide MarkerAt, IsJsSpace;
    var colon, value := MatchHasShape(text, i);
    if cut < value + 4 {
      ShapeAvoidsBraces(text, i, colon, value, cut);
    }
    var before := text[..cut];
    assert before[i..i + |MARKER|] == text[i..i + |MARKER|];
    assert before[value..value + 4] == text[value..value + 4];
    ShapeMatches(before, i, colon, value);
  }

  lemma GapAt(text: string, from: nat, gap: string)
    requires Gap(gap) && from + |gap| <= |text| && text[from..from + |gap|] == gap
    ensures forall i :: from <= i < from + |gap| ==> IsJsSpace(text[i]) && text[i] != '{' && text[i] != '\"'
  {
    forall i | from <= i < from + |gap|
      ensures IsJsSpace(text[i]) && text[i] != '{' && text[i] != '\"'
    {
      assert text[i] == gap[i - from];
      assert gap[i - from] in gap;
      GapIsSpace(gap);
    }
  }

  lemma MarkerMatches(head: string, a: string, b: string, tail: string)
    requires Gap(a) && Gap(b)
    ensures MarkerAt(head + (MARKER + a + ":" + b + "true" + tail), |head|)
  {
    hide MarkerAt, IsJsSpace;
    var text := head + (MARKER + a + ":" + b + "true" + tail);
    var colon := |head| + |MARKER| + |a|;
    var value := colon + 1 + |b|;
    assert text[|head|..|head| + |MARKER|] == MARKER;
    assert text[|head| + |MARKER|..colon] == a;
    assert text[colon] == ':';
    assert text[colon + 1..value] == b;
    assert text[value..value + 4] == "true";
    GapAt(text, |head| + |MARKER|, a);
    GapAt(text, colon + 1, b);
    ShapeMatches(text, |head|, colon, value);
  }

  lemma MatchStartsWithQuote(text: string, i: nat)
    requires MarkerAt(text, i)
    ensures i < |text| && text[i] == '\"'
  {
    assert text[i] == text[i..i + |MARKER|][0];
  }

  /** The search starts the scan at the brace in front of the marker when nothing earlier matches. */
  lemma ScanStartsAtBrace(before: string, gap: string, suffix: string)
    requires forall i: nat :: i < |before| ==> !MarkerAt(before, i)
    requires Gap(gap) && MarkerAt((before + "{" + gap) + suffix, |before + "{" + gap|)
    ensures var text := before + "{" + gap + suffix;
            var marker := Search(text, 0);
            marker >= 0 && LastBrace(text, marker) == |before|
  {
    hide MarkerAt;
    var text := before + "{" + gap + suffix;
    var at := |before| + 1 + |gap|;
    assert text[|before|] == '{';
    assert text[|before| + 1..at] == gap;
    GapAt(text, |before| + 1, gap);
    assert text[..|before|] == before;
    forall i: nat | i < at
      ensures !MarkerAt(text, i)
    {
      if MarkerAt(text, i) {
        if i < |before| {
          MatchStaysBeforeBrace(text, |before|, i);
        } else {
          MatchStartsWithQuote(text, i);
        }
      }
    }
    MatchStartsWithQuote(text, at);
    assert Search(text, 0) == at;
  }

  /** Whatever stands before (without a marker of its own) and after, a printed payload is cut out exactly. */
  lemma PayloadIsExtracted(before: string, j: Json, rest: string)
    requires IsPayload(j)
    requires forall i: nat :: i < |before| ==> !MarkerAt(before, i)
    ensures IsExtract(before + Print(j) + rest, Print(j))
  {
    hide MarkerAt, Run, PrintMembers;
    var first := j.members;
    var suffix := PayloadText(j, rest);
    assert before + Print(j) + rest == before + (Print(j) + rest);
    assert before + ("{" + first.before + suffix) == before + "{" + first.before + suffix;
    ScanStartsAtBrace(before, first.before, suffix);
    ObjectClosesAtItsEnd(j, rest);
    assert (before + Print(j) + rest)[|before|..] == Print(j) + rest;
  }

  lemma Regroup(gap: string, pair: string, more: string, rest: string)
    ensures "{" + (gap + (pair + more)) + "}" + rest == "{" + gap + (pair + (more + "}" + rest))
  {}

  /** The printed payload seen as brace, gap and the text that starts with the marker. */
  lemma PayloadText(j: Json, rest: string) returns (suffix: string)
    requires IsPayload(j)
    ensures Print(j) + rest == "{" + j.members.before + suffix
    ensures Gap(j.members.before)
    ensures forall head: string :: MarkerAt(head + suffix, |head|)
  {
    hide MarkerAt;
    var first := j.members;
    assert ValidMembers(first);
    var more := first.end + (if first.more.Member? then "," else "") + PrintMembers(first.more);
    var pair := MARKER + first.after + ":" + first.gap + "true";
    assert Print(first.value) == "true";
    assert PrintMembers(first) == first.before + (pair + more);
    var tail := more + "}" + rest;
    suffix := pair + tail;
    Regroup(first.before, pair, more, rest);
    forall head: string
      ensures MarkerAt(head + suffix, |head|)
    {
      MarkerMatches(head, first.after, first.gap, tail);
    }
  }
}
