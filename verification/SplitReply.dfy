/**
 Splitting a long reply into messages of at most a given length, preferably at line ends.
 */
module SplitReply {
  import opened Text

  function StripPy(s: string): string { Strip(s, IsPySpace) }

  /** `rfind("\n", 0, limit)`: the last line end before `limit`, or -1. */
  function LastNewline(s: string, limit: nat): (i: int)
    requires limit <= |s|
    ensures -1 <= i < limit && (i >= 0 ==> s[i] == '\n')
    ensures forall j :: i < j < limit ==> s[j] != '\n'
  {
    if limit == 0 then -1 else if s[limit - 1] == '\n' then limit - 1 else LastNewline(s, limit - 1)
  }

  /** Where a text longer than the limit is cut: at its last line end within the limit, unless that is too early. */
  function CutAt(rest: string, limit: nat): (cut: nat)
    requires 0 < limit < |rest|
    ensures limit / 2 <= cut <= limit
    ensures cut == 0 ==> rest[0] == '\n'
  {
    var newline := LastNewline(rest, limit);
    if newline < limit / 2 then limit else newline
  }

  lemma StripNoLonger(s: string)
    ensures |StripPy(s)| <= |s|
    ensures s != "" && IsPySpace(s[0]) ==> |StripPy(s)| < |s|
  {}

  function Pieces(rest: string, limit: nat): seq<string>
    requires limit > 0
    decreases |rest|
  {
    if |rest| <= limit then (if rest != "" then [rest] else [])
    else
      var cut := CutAt(rest, limit);
      StripNoLonger(rest[cut..]);
      [StripPy(rest[..cut])] + Pieces(StripPy(rest[cut..]), limit)
  }

  function Split(text: string, maxChars: int): seq<string> {
    if maxChars <= 0 || |text| <= maxChars then [text] else Pieces(text, maxChars)
  }

  /** What is left after a cut is strictly shorter, even when nothing was cut off. */
  lemma OneCut(rest: string, limit: nat)
    requires 0 < limit < |rest|
    ensures var cut := CutAt(rest, limit);
            && |StripPy(rest[cut..])| <= |rest| - cut
            && |StripPy(rest[cut..])| < |rest|
            && Pieces(rest, limit) == [StripPy(rest[..cut])] + Pieces(StripPy(rest[cut..]), limit)
  {
    hide StripPy, LastNewline, IsPySpace;
    NewlineIsSpace();
    StripNoLonger(rest[CutAt(rest, limit)..]);
  }

  /**
   A text that is too long is cut at its last line end within the limit if that is in the second half of what
   fits, and otherwise where the limit is; the blanks at the cut go.
   */
  lemma CutsAtLineEnds(rest: string, limit: nat, j: nat)
    requires 0 < limit < |rest|
    ensures limit / 2 <= j < limit && rest[j] == '\n' && (forall i :: j < i < limit ==> rest[i] != '\n') ==>
              Pieces(rest, limit) == [StripPy(rest[..j])] + Pieces(StripPy(rest[j..]), limit)
    ensures (forall i :: limit / 2 <= i < limit ==> rest[i] != '\n') ==>
              Pieces(rest, limit) == [StripPy(rest[..limit])] + Pieces(StripPy(rest[limit..]), limit)
  {
    hide StripPy, Pieces;
    OneCut(rest, limit);
    var newline := LastNewline(rest, limit);
    assert newline >= limit / 2 ==> rest[newline] == '\n';
  }

  lemma NewlineIsSpace()
    ensures IsPySpace('\n')
  {}

  method SplitReply(text: string, maxChars: int) returns (chunks: seq<string>)
    ensures chunks == Split(text, maxChars)
  {
    if maxChars <= 0 || |text| <= maxChars {
      return [text];
    }
    hide StripPy, Pieces, LastNewline, CutAt;
    chunks := [];
    var rest := text;
    NothingBefore(Pieces(text, maxChars));
    while |rest| > maxChars
      invariant chunks + Pieces(rest, maxChars) == Pieces(text, maxChars)
      decreases |rest|
    {
      var cut := LastNewline(rest, maxChars);
      if cut < maxChars / 2 {
        cut := maxChars;
      }
      ghost var whole, before := rest, chunks;
      OneCut(whole, maxChars);
      Cut(whole, maxChars, cut);
      var piece := StripPy(rest[..cut]);
      chunks := chunks + [piece];
      rest := StripPy(rest[cut..]);
      Regroup(before, piece, Pieces(rest, maxChars));
      assert Pieces(whole, maxChars) == [piece] + Pieces(rest, maxChars);
    }
    LastPiece(rest, maxChars);
    if rest != "" {
      chunks := chunks + [rest];
    }
  }

  lemma NothingBefore(c: seq<string>)
    ensures [] + c == c
  {}

  lemma Cut(rest: string, limit: nat, cut: int)
    requires 0 < limit < |rest|
    requires cut == if LastNewline(rest, limit) < limit / 2 then limit else LastNewline(rest, limit)
    ensures cut == CutAt(rest, limit)
  {}

  lemma Regroup(a: seq<string>, b: string, c: seq<string>)
    ensures a + ([b] + c) == (a + [b]) + c
  {}

  lemma LastPiece(rest: string, limit: nat)
    requires |rest| <= limit && limit > 0
    ensures Pieces(rest, limit) == if rest != "" then [rest] else []
  {}

  // ---------------------------------------------------------------------------------------------
  // Main results

  /** The characters that are not white space, in their order. */
  function Visible(s: string): string {
    if s == "" then "" else (if IsPySpace(s[0]) then "" else [s[0]]) + Visible(s[1..])
  }

  function Joined(chunks: seq<string>): string {
    if chunks == [] then "" else chunks[0] + Joined(chunks[1..])
  }

  lemma {:induction false} VisibleSplit(a: string, b: string)
    ensures Visible(a + b) == Visible(a) + Visible(b)
  {
    hide IsPySpace;
    if a == "" {
      assert a + b == b;
    } else {
      assert (a + b)[0] == a[0] && (a + b)[1..] == a[1..] + b;
      VisibleSplit(a[1..], b);
    }
  }

  lemma {:induction false} BlankIsInvisible(s: string)
    requires forall i :: 0 <= i < |s| ==> IsPySpace(s[i])
    ensures Visible(s) == ""
  {
    hide IsPySpace;
    if s != "" {
      BlankIsInvisible(s[1..]);
    }
  }

  lemma VisibleOfStripped(s: string)
    ensures Visible(StripPy(s)) == Visible(s)
  {
    hide IsPySpace, Visible, StripLeft, StripRight;
    var left := StripLeft(s, IsPySpace);
    var both := StripRight(left, IsPySpace);
    assert s == s[..|s| - |left|] + left;
    VisibleSplit(s[..|s| - |left|], left);
    BlankIsInvisible(s[..|s| - |left|]);
    assert left == both + left[|both|..];
    VisibleSplit(both, left[|both|..]);
    BlankIsInvisible(left[|both|..]);
  }

  /** No visible character is lost, added or moved, for every text and limit. */
  lemma {:induction false} PiecesKeepVisible(rest: string, limit: nat)
    requires limit > 0
    ensures Visible(Joined(Pieces(rest, limit))) == Visible(rest)
    decreases |rest|
  {
    hide Visible, StripPy, LastNewline;
    if |rest| <= limit {
      OnePiece(rest);
    } else {
      var cut := CutAt(rest, limit);
      var head, tail := StripPy(rest[..cut]), StripPy(rest[cut..]);
      OneCut(rest, limit);
      PiecesKeepVisible(tail, limit);
      VisibleOfStripped(rest[..cut]);
      VisibleOfStripped(rest[cut..]);
      assert rest == rest[..cut] + rest[cut..];
      VisibleSplit(rest[..cut], rest[cut..]);
      VisibleSplit(head, Joined(Pieces(tail, limit)));
      var pieces := Pieces(rest, limit);
      assert pieces[0] == head && pieces[1..] == Pieces(tail, limit);
    }
  }

  lemma OnePiece(rest: string)
    ensures Joined(if rest != "" then [rest] else []) == rest
  {
    assert rest != "" ==> Joined([rest]) == rest + Joined([]);
  }

  /** Every chunk fits the limit, and only the first one can be empty. */
  lemma {:induction false} PiecesFit(rest: string, limit: nat)
    requires limit > 0
    ensures forall c <- Pieces(rest, limit) :: |c| <= limit
    ensures forall k :: 0 < k < |Pieces(rest, limit)| ==> Pieces(rest, limit)[k] != ""
    ensures rest != "" && !IsPySpace(rest[0]) ==> forall c <- Pieces(rest, limit) :: c != ""
    decreases |rest|
  {
    hide LastNewline, StripPy, IsPySpace, Pieces;
    if |rest| <= limit {
      LastPiece(rest, limit);
    } else {
      var cut := CutAt(rest, limit);
      var head, tail := StripPy(rest[..cut]), StripPy(rest[cut..]);
      OneCut(rest, limit);
      StripNoLonger(rest[..cut]);
      StripStarts(rest[cut..]);
      PiecesFit(tail, limit);
      if tail == "" {
        LastPiece(tail, limit);
      }
      NewlineIsSpace();
      var pieces := Pieces(rest, limit);
      forall k | 0 < k < |pieces|
        ensures pieces[k] != ""
      {
        assert pieces[k] == Pieces(tail, limit)[k - 1] && pieces[k] in Pieces(tail, limit);
      }
      if !IsPySpace(rest[0]) {
        VisibleStaysNonempty(rest[..cut]);
      }
    }
  }

  lemma StripStarts(s: string)
    ensures StripPy(s) != "" ==> !IsPySpace(StripPy(s)[0])
  {}

  lemma VisibleStaysNonempty(s: string)
    requires s != "" && !IsPySpace(s[0])
    ensures StripPy(s) != ""
  {
    VisibleOfStripped(s);
  }

  lemma {:induction false} PieceCount(rest: string, limit: nat)
    requires limit >= 2
    ensures (|Pieces(rest, limit)| - 1) * (limit / 2) <= |rest|
    decreases |rest|
  {
    hide LastNewline, StripPy, Pieces;
    if |rest| > limit {
      var cut := CutAt(rest, limit);
      OneCut(rest, limit);
      PieceCount(StripPy(rest[cut..]), limit);
      OneMore(|Pieces(rest, limit)| - 1, limit / 2);
    } else {
      LastPiece(rest, limit);
      ShortCount(|Pieces(rest, limit)|, limit / 2);
    }
  }

  lemma OneMore(n: int, half: nat)
    ensures n * half == (n - 1) * half + half
  {}

  lemma ShortCount(n: nat, half: nat)
    requires n <= 1
    ensures (n - 1) * half <= 0
  {}

  lemma QuotientBound(n: int, half: nat, total: nat)
    requires half > 0 && n * half <= total
    ensures n <= total / half
  {
    var q := total / half;
    assert total < q * half + half;
    if q + 1 <= n {
      Scale(q + 1, n, half);
      OneMore(q + 1, half);
      assert false;
    }
  }

  lemma Scale(a: int, b: int, c: nat)
    requires a <= b
    ensures a * c <= b * c
  {}

  lemma OneText(text: string)
    ensures Joined([text]) == text
  {
    assert [text][1..] == [] && Joined([]) == "";
    assert text + "" == text;
  }

  lemma FewChunks(text: string, maxChars: nat)
    requires maxChars >= 2
    ensures |Split(text, maxChars)| <= |text| / (maxChars / 2) + 1
  {
    hide Pieces;
    if |text| > maxChars {
      PieceCount(text, maxChars);
      QuotientBound(|Pieces(text, maxChars)| - 1, maxChars / 2, |text|);
    }
  }

  /**
   For every text and every limit splitting ends; within a positive limit every chunk fits it, nothing visible
   is lost or reordered, only the first chunk can be empty, and from a limit of two on there are few chunks.
   */
  lemma SplitIsGood(text: string, maxChars: int)
    ensures var chunks := Split(text, maxChars);
            && Visible(Joined(chunks)) == Visible(text)
            && (maxChars > 0 ==> forall c <- chunks :: |c| <= maxChars)
            && (forall k :: 0 < k < |chunks| ==> chunks[k] != "")
            && (maxChars >= 2 ==> |chunks| <= |text| / (maxChars / 2) + 1)
  {
    hide Visible, Pieces, Joined;
    if maxChars <= 0 || |text| <= maxChars {
      OneText(text);
    } else {
      PiecesKeepVisible(text, maxChars);
      PiecesFit(text, maxChars);
    }
    hide Split;
    if maxChars >= 2 {
      FewChunks(text, maxChars);
    }
  }

  /** With limit one a leading line end is cut off as an empty chunk: only stripping makes progress. */
  lemma LimitOneCutsNothing(text: string)
    requires |text| > 1 && text[0] == '\n'
    ensures CutAt(text, 1) == 0 && Split(text, 1) == [""] + Pieces(StripPy(text), 1)
  {
    hide IsPySpace, Pieces;
    OneCut(text, 1);
    assert text[..0] == "" && text[0..] == text;
  }
}
