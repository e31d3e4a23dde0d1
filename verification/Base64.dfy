/**
 Base64 as the repository writes it (section 4 of RFC 4648) and its URL form without padding (section 5).

 `Base64Encode` is the explicit encoder; `Atob` is the platform's forgiving decoder, which also accepts
 missing padding and white space. The shifts and masks of the source appear as divisions and remainders.
 */
module Base64 {
  import opened Wrappers

  type Byte = x: int | 0 <= x < 256

  type Sextet = x: int | 0 <= x < 64

  // ---------------------------------------------------------------------------------------------
  // Encoding

  function At(bytes: seq<Byte>, i: nat): Byte { if i < |bytes| then bytes[i] else 0 }

  /** The table of 64 symbols: capitals, small letters, digits, `+` and `/`. */
  function Symbol(i: Sextet): char {
    if i < 26 then (i + 65) as char
    else if i < 52 then (i + 71) as char
    else if i < 62 then (i - 4) as char
    else if i == 62 then '+'
    else '/'
  }

  // The six-bit groups of three bytes: `first >> 2`, `(first & 3) << 4 | second >> 4`,
  // `(second & 15) << 2 | third >> 6` and `third & 63`.

  function Group0(first: Byte): Sextet { first / 4 }

  function Group1(first: Byte, second: Byte): Sextet { first % 4 * 16 + second / 16 }

  function Group2(second: Byte, third: Byte): Sextet { second % 16 * 4 + third / 64 }

  function Group3(third: Byte): Sextet { third % 64 }

  /** Four characters for up to three bytes. */
  function Block(chunk: seq<Byte>): (r: string)
    requires 1 <= |chunk| <= 3
    ensures |r| == 4
  {
    var first, second, third := At(chunk, 0), At(chunk, 1), At(chunk, 2);
    [Symbol(Group0(first)),
     Symbol(Group1(first, second)),
     if |chunk| > 1 then Symbol(Group2(second, third)) else '=',
     if |chunk| > 2 then Symbol(Group3(third)) else '=']
  }

  function Encode(bytes: seq<Byte>): string {
    if bytes == [] then "" else if |bytes| <= 3 then Block(bytes) else Block(bytes[..3]) + Encode(bytes[3..])
  }

  lemma {:induction false} EncodedLength(bytes: seq<Byte>)
    ensures |Encode(bytes)| == (|bytes| + 2) / 3 * 4
  {
    hide Block;
    if |bytes| > 3 {
      EncodedLength(bytes[3..]);
    }
  }

  method Base64Encode(bytes: seq<Byte>) returns (encoded: string)
    ensures encoded == Encode(bytes)
  {
    hide Symbol, Group0, Group1, Group2, Group3, Encode;
    encoded := "";
    var i := 0;
    assert bytes[0..] == bytes;
    while i < |bytes|
      invariant 0 <= i <= |bytes|
      invariant encoded + Encode(bytes[i..]) == Encode(bytes)
      decreases |bytes| - i
    {
      var end := if i + 3 <= |bytes| then i + 3 else |bytes|;
      var chunk := bytes[i..end];
      EncodeFrom(bytes, i, end);
      ghost var before := encoded;
      var first, second, third := chunk[0], At(chunk, 1), At(chunk, 2);
      encoded := encoded + [Symbol(Group0(first))];
      encoded := encoded + [Symbol(Group1(first, second))];
      if |chunk| > 1 {
        encoded := encoded + [Symbol(Group2(second, third))];
      } else {
        encoded := encoded + ['='];
      }
      if |chunk| > 2 {
        encoded := encoded + [Symbol(Group3(third))];
      } else {
        encoded := encoded + ['='];
      }
      assert encoded == before + Block(chunk);
      assert before + (Block(chunk) + Encode(bytes[end..])) == encoded + Encode(bytes[end..]);
      i := end;
    }
    EncodeNothing();
    assert bytes[|bytes|..] == [];
  }

  lemma EncodeNothing()
    ensures Encode([]) == ""
  {}

  lemma EncodeFrom(bytes: seq<Byte>, i: nat, end: nat)
    requires i < end <= |bytes| && (end == i + 3 || (end == |bytes| && end < i + 3))
    ensures Encode(bytes[i..]) == Block(bytes[i..end]) + Encode(bytes[end..])
  {
    hide Block;
    var rest := bytes[i..];
    if end == |bytes| {
      assert bytes[i..end] == rest && bytes[end..] == [];
    } else {
      assert bytes[i..end] == rest[..3] && bytes[end..] == rest[3..];
    }
  }

  /** `b64urlEncode`: `btoa`, then the URL alphabet, then the padding cut off. */
  function UrlSymbol(c: char): char { if c == '+' then '-' else if c == '/' then '_' else c }

  function UrlSymbols(s: string): (r: string)
    ensures |r| == |s| && forall i :: 0 <= i < |s| ==> r[i] == UrlSymbol(s[i])
  {
    seq(|s|, i requires 0 <= i < |s| => UrlSymbol(s[i]))
  }

  function CutPadding(s: string): string {
    if s != "" && s[|s| - 1] == '=' then CutPadding(s[..|s| - 1]) else s
  }

  function UrlEncode(bytes: seq<Byte>): string { CutPadding(UrlSymbols(Encode(bytes))) }

  // ---------------------------------------------------------------------------------------------
  // Decoding

  function ValueOf(c: char): Option<Sextet> {
    if 'A' <= c <= 'Z' then Some(c as int - 65)
    else if 'a' <= c <= 'z' then Some(c as int - 71)
    else if '0' <= c <= '9' then Some(c as int + 4)
    else if c == '+' then Some(62)
    else if c == '/' then Some(63)
    else None
  }

  function Values(s: string): Option<seq<Sextet>> {
    if s == "" then Some([])
    else
      var head, tail := ValueOf(s[0]), Values(s[1..]);
      if head.None? || tail.None? then None else Some([head.value] + tail.value)
  }

  function Byte0(a: Sextet, b: Sextet): Byte { var x: int := a; var y: int := b; x * 4 + y / 16 }

  function Byte1(b: Sextet, c: Sextet): Byte { var x: int := b; var y: int := c; x % 16 * 16 + y / 4 }

  function Byte2(c: Sextet, d: Sextet): Byte { var x: int := c; var y: int := d; x % 4 * 64 + y }

  /** Four sextets are three bytes; left-over bits of a shorter last group are dropped. */
  function Bytes(v: seq<Sextet>): seq<Byte> {
    if |v| >= 4 then [Byte0(v[0], v[1]), Byte1(v[1], v[2]), Byte2(v[2], v[3])] + Bytes(v[4..])
    else if |v| == 3 then [Byte0(v[0], v[1]), Byte1(v[1], v[2])]
    else if |v| == 2 then [Byte0(v[0], v[1])]
    else []
  }

  function CutSpaces(s: string): string {
    if s == "" then ""
    else (if s[0] in " \t\n\r\U{000c}" then "" else [s[0]]) + CutSpaces(s[1..])
  }

  /** Whole groups lose one or two padding signs at the end. */
  function Unpadded(s: string): string {
    var n := |s|;
    if n % 4 != 0 || n == 0 || s[n - 1] != '=' then s
    else if s[n - 2] == '=' then s[..n - 2]
    else s[..n - 1]
  }

  /** `atob`: white space is ignored, one or two padding signs may complete a group, nothing else may be odd. */
  function Atob(text: string): Option<seq<Byte>> {
    var body := Unpadded(CutSpaces(text));
    if |body| % 4 == 1 then None
    else match Values(body)
      case None => None
      case Some(v) => Some(Bytes(v))
  }

  function PlainSymbol(c: char): char { if c == '-' then '+' else if c == '_' then '/' else c }

  function PlainSymbols(s: string): (r: string)
    ensures |r| == |s| && forall i :: 0 <= i < |s| ==> r[i] == PlainSymbol(s[i])
  {
    seq(|s|, i requires 0 <= i < |s| => PlainSymbol(s[i]))
  }

  /** The number of padding signs the source computes from the length. */
  function PaddingFor(n: nat): nat { (4 - (if n % 4 != 0 then n % 4 else 4)) % 4 }

  function Padding(n: nat): (r: string)
    ensures |r| == n && forall c <- r :: c == '='
  {
    seq(n, i => '=')
  }

  function UrlDecode(text: string): Option<seq<Byte>> {
    var normalized := PlainSymbols(text);
    Atob(normalized + Padding(PaddingFor(|normalized|)))
  }

  // ---------------------------------------------------------------------------------------------
  // Bytes as sextets

  /** The six-bit groups of the bytes, the last one filled up with zero bits. */
  function Sextets(b: seq<Byte>): seq<Sextet> {
    if |b| >= 3 then [Group0(b[0]), Group1(b[0], b[1]), Group2(b[1], b[2]), Group3(b[2])] + Sextets(b[3..])
    else if |b| == 2 then [Group0(b[0]), Group1(b[0], b[1]), Group2(b[1], 0)]
    else if |b| == 1 then [Group0(b[0]), Group1(b[0], 0)]
    else []
  }

  lemma GroupsAreBytes(a: Byte, b: Byte, c: Byte)
    ensures Byte0(Group0(a), Group1(a, b)) == a
    ensures Byte1(Group1(a, b), Group2(b, c)) == b
    ensures Byte2(Group2(b, c), Group3(c)) == c
  {}

  lemma {:induction false} BytesOfSextets(b: seq<Byte>)
    ensures Bytes(Sextets(b)) == b
  {
    hide Group0, Group1, Group2, Group3, Byte0, Byte1, Byte2;
    GroupsAreBytes(At(b, 0), At(b, 1), At(b, 2));
    if |b| >= 3 {
      BytesOfSextets(b[3..]);
      assert Sextets(b)[4..] == Sextets(b[3..]);
      assert b == [b[0], b[1], b[2]] + b[3..];
    }
  }

  lemma {:induction false} SextetsLength(b: seq<Byte>)
    ensures |Sextets(b)| == |b| / 3 * 4 + (if |b| % 3 == 0 then 0 else |b| % 3 + 1)
  {
    hide Group0, Group1, Group2, Group3;
    if |b| >= 3 {
      SextetsLength(b[3..]);
    }
  }

  function Symbols(v: seq<Sextet>): (r: string)
    ensures |r| == |v|
  {
    seq(|v|, i requires 0 <= i < |v| => Symbol(v[i]))
  }

  lemma SymbolHasValue(i: Sextet)
    ensures ValueOf(Symbol(i)) == Some(i)
    ensures Symbol(i) !in "=-_ \t\n\r\U{000c}"
    ensures PlainSymbol(UrlSymbol(Symbol(i))) == Symbol(i) && UrlSymbol(Symbol(i)) != '='
  {}

  lemma {:induction false} SymbolsHaveValues(v: seq<Sextet>)
    ensures Values(Symbols(v)) == Some(v)
  {
    hide Symbol, ValueOf;
    if v != [] {
      SymbolHasValue(v[0]);
      SymbolsHaveValues(v[1..]);
      assert Symbols(v)[0] == Symbol(v[0]) && Symbols(v)[1..] == Symbols(v[1..]);
      assert [v[0]] + v[1..] == v;
    }
  }

  /** The text is the symbols of the sextets, completed to a multiple of four. */
  lemma {:induction false} EncodeIsSymbols(b: seq<Byte>)
    ensures Encode(b) == Symbols(Sextets(b)) + Padding(PaddingFor(|Sextets(b)|))
  {
    hide Symbols, Sextets, Encode, Block, PaddingFor, Padding;
    if |b| < 3 {
      ShortEncode(b);
    } else {
      EncodeIsSymbols(b[3..]);
      EncodeBlock(b);
      SextetsBlock(b);
      SymbolsJoin(Sextets(b[..3]), Sextets(b[3..]));
      SamePadding(|Sextets(b[3..])|);
    }
  }

  lemma ShortEncode(b: seq<Byte>)
    requires |b| < 3
    ensures Encode(b) == Symbols(Sextets(b)) + Padding(PaddingFor(|Sextets(b)|))
  {
    hide Symbol, Group0, Group1, Group2, Group3;
  }

  lemma EncodeBlock(b: seq<Byte>)
    requires |b| >= 3
    ensures Encode(b) == Block(b[..3]) + Encode(b[3..])
  {
    hide Block;
    if |b| == 3 {
      assert b[..3] == b && Encode(b[3..]) == "";
      assert Block(b) + "" == Block(b);
    }
  }

  lemma SextetsBlock(b: seq<Byte>)
    requires |b| >= 3
    ensures Sextets(b) == Sextets(b[..3]) + Sextets(b[3..])
    ensures Symbols(Sextets(b[..3])) == Block(b[..3]) && |Sextets(b[..3])| == 4
  {
    hide Symbol, Group0, Group1, Group2, Group3;
    assert b[..3][3..] == [] && Sextets([]) == [];
  }

  lemma SymbolsJoin(u: seq<Sextet>, v: seq<Sextet>)
    ensures Symbols(u + v) == Symbols(u) + Symbols(v)
  {
    hide Symbol;
  }

  lemma SamePadding(n: nat)
    ensures PaddingFor(4 + n) == PaddingFor(n)
  {}

  lemma {:induction false} CutPaddingOf(s: string, n: nat)
    requires s == "" || s[|s| - 1] != '='
    ensures CutPadding(s + Padding(n)) == s
    decreases n
  {
    if n == 0 {
      assert s + Padding(0) == s;
    } else {
      assert (s + Padding(n))[..|s| + n - 1] == s + Padding(n - 1);
      CutPaddingOf(s, n - 1);
    }
  }

  lemma {:induction false} NoSpacesToCut(s: string)
    requires forall i :: 0 <= i < |s| ==> s[i] !in " \t\n\r\U{000c}"
    ensures CutSpaces(s) == s
  {
    if s != "" {
      NoSpacesToCut(s[1..]);
    }
  }

  lemma UnpaddedOf(s: string, n: nat)
    requires n <= 2 && (|s| + n) % 4 == 0 && forall i :: 0 <= i < |s| ==> s[i] != '='
    ensures Unpadded(s + Padding(n)) == s
  {
    var padded := s + Padding(n);
    assert padded[..|s|] == s;
    assert forall i :: |s| <= i < |padded| ==> padded[i] == Padding(n)[i - |s|] == '=';
    if n == 0 {
      assert padded == s;
    }
  }

  /** `atob` reads the symbols of any bytes, completed with the padding computed from their number. */
  lemma AtobOfSymbols(b: seq<Byte>)
    ensures var v := Sextets(b);
            Atob(Symbols(v) + Padding(PaddingFor(|v|))) == Some(b)
  {
    hide Symbol, ValueOf, CutSpaces, Values, Bytes, Sextets, Unpadded;
    var v := Sextets(b);
    var p := PaddingFor(|v|);
    var s := Symbols(v) + Padding(p);
    SextetsLength(b);
    forall i | 0 <= i < |v|
      ensures Symbols(v)[i] !in "=-_ \t\n\r\U{000c}"
    {
      SymbolHasValue(v[i]);
    }
    NoSpacesToCut(s);
    UnpaddedOf(Symbols(v), p);
    SymbolsHaveValues(v);
    BytesOfSextets(b);
  }

  // ---------------------------------------------------------------------------------------------
  // Main results

  /** The explicit encoder has a left inverse on every byte sequence. */
  lemma DecodeEncode(b: seq<Byte>)
    ensures Atob(Encode(b)) == Some(b)
  {
    EncodeIsSymbols(b);
    AtobOfSymbols(b);
  }

  /** The URL form is the URL symbols of the sextets and nothing else. */
  lemma UrlEncodeIsSymbols(b: seq<Byte>)
    ensures UrlEncode(b) == UrlSymbols(Symbols(Sextets(b)))
    ensures forall c <- UrlEncode(b) :: c != '=' && c != '+' && c != '/'
  {
    hide Symbol, Sextets, CutPadding, Encode;
    var v := Sextets(b);
    EncodeIsSymbols(b);
    forall i | 0 <= i < |v|
      ensures UrlSymbols(Symbols(v))[i] != '='
    {
      SymbolHasValue(v[i]);
    }
    assert UrlSymbols(Encode(b)) == UrlSymbols(Symbols(v)) + Padding(PaddingFor(|v|));
    CutPaddingOf(UrlSymbols(Symbols(v)), PaddingFor(|v|));
  }

  /** Decoding the URL form, whose padding is computed anew from its length, gives back every byte sequence. */
  lemma UrlDecodeEncode(b: seq<Byte>)
    ensures UrlDecode(UrlEncode(b)) == Some(b)
  {
    hide Symbol, Sextets, Atob, UrlEncode;
    var v := Sextets(b);
    UrlEncodeIsSymbols(b);
    forall i | 0 <= i < |v|
      ensures PlainSymbol(UrlSymbol(Symbol(v[i]))) == Symbol(v[i])
    {
      SymbolHasValue(v[i]);
    }
    assert PlainSymbols(UrlEncode(b)) == Symbols(v);
    AtobOfSymbols(b);
  }

  /** Different bytes have different texts, in both alphabets. */
  lemma EncodingsAreInjective(a: seq<Byte>, b: seq<Byte>)
    ensures Encode(a) == Encode(b) ==> a == b
    ensures UrlEncode(a) == UrlEncode(b) ==> a == b
  {
    hide Encode, UrlEncode, Atob, UrlDecode;
    DecodeEncode(a);
    DecodeEncode(b);
    UrlDecodeEncode(a);
    UrlDecodeEncode(b);
  }

  // ---------------------------------------------------------------------------------------------
  // The browser's versions, which go through strings of one character per byte

  /** `String.fromCharCode` on every byte. */
  function Binary(bytes: seq<Byte>): (r: string)
    ensures |r| == |bytes| && forall i :: 0 <= i < |r| ==> r[i] as int == bytes[i]
  {
    seq(|bytes|, i requires 0 <= i < |bytes| => bytes[i] as char)
  }

  function CharCode(binary: string, i: nat): Byte
    requires i < |binary| && forall c <- binary :: c as int < 256
  {
    assert binary[i] in binary;
    binary[i] as int
  }

  function CharCodes(binary: string): (r: seq<Byte>)
    requires forall c <- binary :: c as int < 256
    ensures |r| == |binary| && forall i :: 0 <= i < |r| ==> r[i] == binary[i] as int
  {
    seq(|binary|, i requires 0 <= i < |binary| => CharCode(binary, i))
  }

  method B64UrlEncode(bytes: seq<Byte>) returns (text: string)
    ensures text == UrlEncode(bytes)
  {
    hide UrlEncode, Encode, CutPadding;
    var binary := "";
    for index := 0 to |bytes|
      invariant binary == Binary(bytes[..index])
    {
      binary := binary + [bytes[index] as char];
    }
    assert bytes[..|bytes|] == bytes;
    assert CharCodes(binary) == bytes;
    var standard := Base64Encode(CharCodes(binary));
    text := CutPadding(UrlSymbols(standard));
    UrlEncodeUnfolds(bytes);
  }

  lemma UrlEncodeUnfolds(bytes: seq<Byte>)
    ensures UrlEncode(bytes) == CutPadding(UrlSymbols(Encode(bytes)))
  {}

  method B64UrlDecode(text: string) returns (decoded: Option<array<Byte>>)
    ensures decoded.Some? <==> UrlDecode(text).Some?
    ensures decoded.Some? ==> fresh(decoded.value) && decoded.value[..] == UrlDecode(text).value
  {
    hide Atob, PlainSymbols, PaddingFor, Padding;
    var normalized := PlainSymbols(text);
    var padding := PaddingFor(|normalized|);
    var result := Atob(normalized + Padding(padding));
    if result.None? {
      return None;
    }
    var binary := Binary(result.value);
    var bytes := new Byte[|binary|];
    for index := 0 to |binary|
      invariant forall i :: 0 <= i < index ==> bytes[i] == result.value[i]
    {
      bytes[index] := binary[index] as int;
    }
    assert bytes[..] == result.value;
    decoded := Some(bytes);
  }
}
