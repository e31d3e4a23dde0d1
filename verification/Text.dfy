/** Character classes and trimming as the two scripting languages of the repository define them. */
module Text {

  /** What `\s` and `trim` treat as white space in JavaScript. */
  predicate IsJsSpace(c: char) {
    || c in " \t\n\U{000b}\U{000c}\r\U{00a0}\U{1680}\U{2028}\U{2029}\U{202f}\U{205f}\U{3000}\U{feff}"
    || '\U{2000}' <= c <= '\U{200a}'
  }

  /** What `strip` removes in Python. */
  predicate IsPySpace(c: char) {
    || c in " \t\n\U{000b}\U{000c}\r\U{0085}\U{00a0}\U{1680}\U{2028}\U{2029}\U{202f}\U{205f}\U{3000}"
    || '\U{001c}' <= c <= '\U{001f}'
    || '\U{2000}' <= c <= '\U{200a}'
  }

  function StripLeft(s: string, space: char -> bool): (r: string)
    ensures |r| <= |s| && r == s[|s| - |r|..]
    ensures r != "" ==> !space(r[0])
    ensures forall i :: 0 <= i < |s| - |r| ==> space(s[i])
  {
    if s != "" && space(s[0]) then StripLeft(s[1..], space) else s
  }

  function StripRight(s: string, space: char -> bool): (r: string)
    ensures |r| <= |s| && r == s[..|r|]
    ensures r != "" ==> !space(r[|r| - 1])
    ensures forall i :: |r| <= i < |s| ==> space(s[i])
  {
    if s != "" && space(s[|s| - 1]) then StripRight(s[..|s| - 1], space) else s
  }

  function Strip(s: string, space: char -> bool): (r: string)
    ensures |r| <= |s|
    ensures r == "" || (!space(r[0]) && !space(r[|r| - 1]))
  {
    StripRight(StripLeft(s, space), space)
  }

  function Trim(s: string): string { Strip(s, IsJsSpace) }

  lemma StripIdempotent(s: string, space: char -> bool)
    ensures Strip(Strip(s, space), space) == Strip(s, space)
  {
    StripOfStripped(Strip(s, space), space);
  }

  /** Text without white space at its ends is left alone. */
  lemma StripOfStripped(s: string, space: char -> bool)
    requires s == "" || (!space(s[0]) && !space(s[|s| - 1]))
    ensures Strip(s, space) == s
  {}

  lemma TrimIdempotent(s: string)
    ensures Trim(Trim(s)) == Trim(s)
  {
    StripIdempotent(s, IsJsSpace);
  }

  /** `toLowerCase` as far as the words it is compared with can tell. */
  function LowerChar(c: char): char { if 'A' <= c <= 'Z' then c + 32 as char else c }

  function Lower(s: string): string { seq(|s|, i requires 0 <= i < |s| => LowerChar(s[i])) }

  /** A word without blanks at its ends and without capitals is its own normal form. */
  lemma NormalWord(s: string)
    requires s != "" && !IsJsSpace(s[0]) && !IsJsSpace(s[|s| - 1])
    requires forall i :: 0 <= i < |s| ==> !('A' <= s[i] <= 'Z')
    ensures Lower(Trim(s)) == s
  {
    StripOfStripped(s, IsJsSpace);
  }
}
