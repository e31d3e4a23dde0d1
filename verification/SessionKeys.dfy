/** Session identifiers as the renderer script normalises and validates them. */
module SessionKeys {
  import opened Text

  const LOCAL := "local:"

  predicate StartsWithLocal(s: string) { LOCAL <= s }

  /** `projectMoveSessionKey`: the identifier without blanks around it and without one `local:` prefix. */
  function SessionKey(s: string): string {
    var id := Trim(s);
    var bare := if StartsWithLocal(id) then id[|LOCAL|..] else id;
    if StartsWithLocal(id) && StartsWithLocal(bare) then id else bare
  }

  predicate KeyChar(c: char) {
    'A' <= c <= 'Z' || 'a' <= c <= 'z' || '0' <= c <= '9' || c == '_' || c == '.' || c == '-'
  }

  predicate IsValidKey(k: string) {
    8 <= |k| <= 128 && (forall c <- k :: KeyChar(c)) && k !in ["__proto__", "prototype", "constructor"]
  }

  /** `validThreadScrollSessionKey`: the key, or the empty string when it is not acceptable. */
  function ValidKey(s: string): (k: string)
    ensures k == "" || IsValidKey(k)
  {
    var k := SessionKey(s);
    if IsValidKey(k) then k else ""
  }

  lemma KeyCharIsNoSpace(c: char)
    requires KeyChar(c)
    ensures !IsJsSpace(c)
  {}

  /** A digit, a letter or one of `-._`, by its code. */
  predicate HasKeyCode(c: char) {
    var n := c as int;
    48 <= n <= 57 || 65 <= n <= 90 || 97 <= n <= 122 || n in {45, 46, 95}
  }

  /** Every text of 8 to 128 letters, digits and the marks `_.-` is accepted as it is, but for three names. */
  lemma AcceptedKeys(k: string)
    requires 8 <= |k| <= 128 && forall i :: 0 <= i < |k| ==> HasKeyCode(k[i])
    ensures ValidKey(k) == k <==> k != "__proto__" && k != "prototype" && k != "constructor"
  {
    hide KeyChar, Trim;
    forall c | c in k
      ensures KeyChar(c)
    {
      var i :| 0 <= i < |k| && k[i] == c;
      CodesAreKeyChars(c);
    }
    if IsValidKey(k) {
      ValidKeyIsStable(k);
    }
  }

  lemma CodesAreKeyChars(c: char)
    ensures HasKeyCode(c) <==> KeyChar(c)
  {}

  /** A key that was accepted once is accepted again and stays the same. */
  lemma ValidKeyIsStable(k: string)
    requires IsValidKey(k)
    ensures ValidKey(k) == k
  {
    KeyCharIsNoSpace(k[0]);
    KeyCharIsNoSpace(k[|k| - 1]);
    hide IsJsSpace;
    StripOfStripped(k, IsJsSpace);
    KeysAreNotLocal(k);
  }

  /** The texts that stand for a key: the key itself, bare or after `local:`, with or without blanks around it. */
  lemma ValidKeyIff(s: string, k: string)
    requires IsValidKey(k)
    ensures ValidKey(s) == k <==> Trim(s) == k || Trim(s) == "local:" + k
  {
    hide Trim;
    KeysAreNotLocal(k);
    var id := Trim(s);
    if StartsWithLocal(id) {
      assert id == LOCAL + id[|LOCAL|..];
    }
    assert (LOCAL + k)[|LOCAL|..] == k;
  }

  lemma KeysAreNotLocal(k: string)
    requires IsValidKey(k)
    ensures !StartsWithLocal(k)
  {
    assert KeyChar(k[5]) && LOCAL[5] == ':';
  }
}
