/**
 The model table of a relay profile: rows of a model name and a context window, stored as one text with a
 name per line and a table of windows by name. Merging cleans rows up; saving and loading go through both
 stored values.
 */
module ModelRows {
  import opened Text

  datatype Row = Row(name: string, window: string)

  const BLANK := Row("", "")

  /** What a profile stores. The windows are kept as a JSON object, here the table it stands for. */
  datatype Saved = Saved(list: string, windows: map<string, string>)

  function Clean(row: Row): Row { Row(Trim(row.name), Trim(row.window)) }

  function OrBlank(rows: seq<Row>): seq<Row> { if rows == [] then [BLANK] else rows }

  // ---------------------------------------------------------------------------------------------
  // Merging

  predicate HasName(rows: seq<Row>, name: string) { exists r <- rows :: r.name == name }

  function Add(kept: seq<Row>, row: Row): seq<Row> {
    if Trim(row.name) == "" || HasName(kept, Trim(row.name)) then kept else kept + [Clean(row)]
  }

  function Kept(rows: seq<Row>): seq<Row> {
    if rows == [] then [] else Add(Kept(rows[..|rows| - 1]), rows[|rows| - 1])
  }

  function Merge(currentRows: seq<Row>, incomingRows: seq<Row>): seq<Row> {
    OrBlank(Kept(currentRows + incomingRows))
  }

  method MergeModelWindowRows(currentRows: seq<Row>, incomingRows: seq<Row>) returns (rows: seq<Row>)
    ensures rows == Merge(currentRows, incomingRows)
  {
    hide Trim, HasName, Add, Kept;
    rows := [];
    var seen: set<string> := {};
    KeptOfNone();
    var i := 0;
    while i < |currentRows|
      invariant i <= |currentRows|
      invariant rows == Kept(currentRows[..i]) && Seen(rows, seen)
    {
      var name := Trim(currentRows[i].name);
      AddSeen(rows, seen, currentRows[i]);
      KeptOfOneMore(currentRows[..i], currentRows[i]);
      assert currentRows[..i] + [currentRows[i]] == currentRows[..i + 1];
      if name != "" && name !in seen {
        seen := seen + {name};
        rows := rows + [Row(name, Trim(currentRows[i].window))];
      }
      i := i + 1;
    }
    assert currentRows[..i] == currentRows == currentRows + incomingRows[..0];
    i := 0;
    while i < |incomingRows|
      invariant i <= |incomingRows|
      invariant rows == Kept(currentRows + incomingRows[..i]) && Seen(rows, seen)
    {
      var name := Trim(incomingRows[i].name);
      AddSeen(rows, seen, incomingRows[i]);
      KeptOfOneMore(currentRows + incomingRows[..i], incomingRows[i]);
      assert currentRows + incomingRows[..i] + [incomingRows[i]] == currentRows + incomingRows[..i + 1];
      if name != "" && name !in seen {
        seen := seen + {name};
        rows := rows + [Row(name, Trim(incomingRows[i].window))];
      }
      i := i + 1;
    }
    assert incomingRows[..i] == incomingRows;
    if |rows| == 0 {
      rows := [BLANK];
    }
  }

  ghost predicate Seen(kept: seq<Row>, seen: set<string>) { forall name :: name in seen <==> HasName(kept, name) }

  lemma AddSeen(kept: seq<Row>, seen: set<string>, row: Row)
    requires Seen(kept, seen)
    ensures Add(kept, row) == if Trim(row.name) != "" && Trim(row.name) !in seen then kept + [Clean(row)] else kept
    ensures Seen(kept + [Clean(row)], seen + {Trim(row.name)})
  {
    hide Trim;
    var longer := kept + [Clean(row)];
    assert Clean(row) in longer && forall r <- kept :: r in longer;
  }

  lemma KeptOfNone()
    ensures Kept([]) == [] && Seen([], {})
  {}

  lemma KeptOfOneMore(rows: seq<Row>, row: Row)
    ensures Kept(rows + [row]) == Add(Kept(rows), row)
  {
    assert (rows + [row])[..|rows|] == rows;
  }

  /** Clean rows under different names. */
  ghost predicate Tidy(rows: seq<Row>) {
    && (forall r <- rows :: r.name != "" && Trim(r.name) == r.name && Trim(r.window) == r.window)
    && forall i, j :: 0 <= i < j < |rows| ==> rows[i].name != rows[j].name
  }

  lemma AddIsTidy(kept: seq<Row>, row: Row)
    requires Tidy(kept)
    ensures Tidy(Add(kept, row))
  {
    hide Trim;
    TrimIdempotent(row.name);
    TrimIdempotent(row.window);
  }

  lemma {:induction false} KeptIsTidy(rows: seq<Row>)
    ensures Tidy(Kept(rows))
  {
    hide Add, Tidy;
    if rows == [] {
      NothingIsTidy();
    } else {
      KeptIsTidy(rows[..|rows| - 1]);
      AddIsTidy(Kept(rows[..|rows| - 1]), rows[|rows| - 1]);
    }
  }

  lemma NothingIsTidy()
    ensures Tidy([])
  {}

  lemma {:induction false} KeptOfTidy(rows: seq<Row>)
    requires Tidy(rows)
    ensures Kept(rows) == rows
  {
    hide Tidy, Add, Clean, HasName;
    if rows != [] {
      var front, last := rows[..|rows| - 1], rows[|rows| - 1];
      TidyFront(rows);
      KeptOfTidy(front);
      AddOfTidy(front, last);
      assert rows == front + [last];
    }
  }

  lemma TidyFront(rows: seq<Row>)
    requires Tidy(rows) && rows != []
    ensures var front, last := rows[..|rows| - 1], rows[|rows| - 1];
            Tidy(front) && !HasName(front, last.name) && last.name != "" && Clean(last) == last
  {
    hide Trim;
    assert rows[|rows| - 1] in rows;
    assert forall r <- rows[..|rows| - 1] :: r in rows;
  }

  lemma AddOfTidy(kept: seq<Row>, row: Row)
    requires !HasName(kept, row.name) && row.name != "" && Clean(row) == row
    ensures Add(kept, row) == kept + [row]
  {
    hide Trim, HasName;
  }

  /** Row `i` is the first one with its name, and the name is not blank. */
  ghost predicate IsFirst(rows: seq<Row>, i: nat)
    requires i < |rows|
  {
    Trim(rows[i].name) != "" && forall j :: 0 <= j < i ==> Trim(rows[j].name) != Trim(rows[i].name)
  }

  /** The row with the blanks around its name and its window gone. */
  predicate IsCleaned(kept: Row, row: Row) { kept.name == Trim(row.name) && kept.window == Trim(row.window) }

  /** `at` lists, in order, the places of the first rows under their names, and these are the rows kept. */
  ghost predicate ArePlaces(rows: seq<Row>, kept: seq<Row>, at: seq<nat>) {
    && |at| == |kept|
    && (forall k :: 0 <= k < |at| ==> at[k] < |rows| && IsFirst(rows, at[k]) && IsCleaned(kept[k], rows[at[k]]))
    && (forall k, l :: 0 <= k < l < |at| ==> at[k] < at[l])
    && forall i :: 0 <= i < |rows| && IsFirst(rows, i) ==> i in at
  }

  lemma {:induction false} KeptNames(rows: seq<Row>)
    ensures forall i :: 0 <= i < |rows| && Trim(rows[i].name) != "" ==> HasName(Kept(rows), Trim(rows[i].name))
    ensures forall r <- Kept(rows) :: exists i :: 0 <= i < |rows| && Trim(rows[i].name) == r.name
  {
    hide Trim;
    if rows != [] {
      var front, last := rows[..|rows| - 1], rows[|rows| - 1];
      KeptNames(front);
      var kept := Kept(front);
      assert forall r <- kept + [Clean(last)] :: r in kept || r == Clean(last);
      assert Clean(last) in kept + [Clean(last)] && forall r <- kept :: r in kept + [Clean(last)];
    }
  }

  lemma FirstIff(rows: seq<Row>)
    requires rows != []
    ensures var front, name := rows[..|rows| - 1], Trim(rows[|rows| - 1].name);
            IsFirst(rows, |rows| - 1) <==> name != "" && !HasName(Kept(front), name)
  {
    hide Trim, Kept;
    KeptNames(rows[..|rows| - 1]);
  }

  lemma IsFirstInFront(rows: seq<Row>, i: nat)
    requires i < |rows| - 1
    ensures IsFirst(rows[..|rows| - 1], i) <==> IsFirst(rows, i)
  {
    hide Trim;
    assert forall j :: 0 <= j <= i ==> rows[..|rows| - 1][j] == rows[j];
  }

  /** Merging keeps exactly the first row under every name, cleaned, in the order they came. */
  lemma {:induction false} KeptAreFirsts(rows: seq<Row>) returns (at: seq<nat>)
    ensures ArePlaces(rows, Kept(rows), at)
  {
    hide Trim, IsFirst, HasName, Clean;
    if rows == [] {
      at := [];
    } else {
      var front := rows[..|rows| - 1];
      var kept := Kept(front);
      at := KeptAreFirsts(front);
      FirstIff(rows);
      if IsFirst(rows, |rows| - 1) {
        PlacesMore(rows, kept, at);
        at := at + [|rows| - 1];
      } else {
        PlacesSame(rows, kept, at);
      }
    }
  }

  lemma FirstsInFront(rows: seq<Row>)
    requires rows != []
    ensures forall i :: 0 <= i < |rows| - 1 ==> (IsFirst(rows[..|rows| - 1], i) <==> IsFirst(rows, i))
  {
    hide IsFirst;
    forall i | 0 <= i < |rows| - 1
      ensures IsFirst(rows[..|rows| - 1], i) <==> IsFirst(rows, i)
    {
      IsFirstInFront(rows, i);
    }
  }

  lemma PlacesSame(rows: seq<Row>, kept: seq<Row>, at: seq<nat>)
    requires rows != [] && ArePlaces(rows[..|rows| - 1], kept, at) && !IsFirst(rows, |rows| - 1)
    ensures ArePlaces(rows, kept, at)
  {
    hide IsFirst, Trim;
    FirstsInFront(rows);
  }

  lemma PlacesMore(rows: seq<Row>, kept: seq<Row>, at: seq<nat>)
    requires rows != [] && ArePlaces(rows[..|rows| - 1], kept, at) && IsFirst(rows, |rows| - 1)
    ensures ArePlaces(rows, kept + [Clean(rows[|rows| - 1])], at + [|rows| - 1])
  {
    hide IsFirst, Trim;
    FirstsInFront(rows);
    var more := at + [|rows| - 1];
    assert more[|at|] == |rows| - 1 && forall i <- at :: i in more;
  }

  lemma {:induction false} KeptTwice(rows: seq<Row>, more: seq<Row>)
    ensures Kept(Kept(rows) + more) == Kept(rows + more)
  {
    hide Add, Tidy, Kept;
    if more == [] {
      KeptIsTidy(rows);
      KeptOfTidy(Kept(rows));
      assert Kept(rows) + more == Kept(rows) && rows + more == rows;
    } else {
      var front, last := more[..|more| - 1], more[|more| - 1];
      KeptTwice(rows, front);
      KeptOfOneMore(Kept(rows) + front, last);
      KeptOfOneMore(rows + front, last);
      assert Kept(rows) + more == Kept(rows) + front + [last] && rows + more == rows + front + [last];
    }
  }

  /** The empty row that stands for "no rows" weighs nothing. */
  lemma BlankIsNothing(rows: seq<Row>, more: seq<Row>)
    ensures Kept(OrBlank(rows) + more) == Kept(rows + more)
  {
    hide Trim, Kept;
    if rows == [] {
      KeptTwice([BLANK], more);
      KeptOfBlank();
      assert [] + more == more;
    }
  }

  lemma KeptOfBlank()
    ensures Kept([BLANK]) == [] && Trim("") == ""
  {
    assert Trim("") == "";
    hide Trim;
    KeptOfOneMore([], BLANK);
    assert [] + [BLANK] == [BLANK];
  }

  /** Merging in two steps is merging once: an earlier merge never changes which rows win, or their order. */
  lemma MergeInSteps(a: seq<Row>, b: seq<Row>, c: seq<Row>)
    ensures Merge(Merge(a, b), c) == Merge(a, b + c)
    ensures Merge(Merge(a, b), []) == Merge(a, b)
  {
    hide Kept, Trim;
    BlankIsNothing(Kept(a + b), c);
    BlankIsNothing(Kept(a + b), []);
    KeptTwice(a + b, c);
    KeptTwice(a + b, []);
    assert a + b + c == a + (b + c);
    assert a + b + [] == a + b;
  }

  // ---------------------------------------------------------------------------------------------
  // Lines

  function SplitLines(text: string): (lines: seq<string>)
    ensures lines != []
    ensures forall line <- lines :: '\n' !in line
  {
    if text == "" then [""]
    else
      var rest := SplitLines(text[1..]);
      if text[0] == '\n' then [""] + rest else [[text[0]] + rest[0]] + rest[1..]
  }

  function JoinLines(lines: seq<string>): string {
    if lines == [] then "" else if |lines| == 1 then lines[0] else lines[0] + "\n" + JoinLines(lines[1..])
  }

  lemma {:induction false} SplitOfLine(line: string)
    requires '\n' !in line
    ensures SplitLines(line) == [line]
  {
    if line != "" {
      SplitOfLine(line[1..]);
      assert [line[0]] + line[1..] == line;
    }
  }

  lemma {:induction false} SplitOfMore(line: string, rest: string)
    requires '\n' !in line
    ensures SplitLines(line + "\n" + rest) == [line] + SplitLines(rest)
  {
    var text := line + "\n" + rest;
    if line == "" {
      assert text[1..] == rest;
    } else {
      SplitOfMore(line[1..], rest);
      assert text[1..] == line[1..] + "\n" + rest;
      assert [line[0]] + line[1..] == line;
    }
  }

  lemma {:induction false} SplitOfJoin(lines: seq<string>)
    requires lines != [] && forall line <- lines :: '\n' !in line
    ensures SplitLines(JoinLines(lines)) == lines
  {
    assert lines[0] in lines;
    if |lines| == 1 {
      SplitOfLine(lines[0]);
    } else {
      SplitOfJoin(lines[1..]);
      SplitOfMore(lines[0], JoinLines(lines[1..]));
    }
  }

  // ---------------------------------------------------------------------------------------------
  // Loading and saving

  /** The lines that name something, trimmed. */
  function NamedLines(lines: seq<string>): seq<string> {
    if lines == [] then []
    else (if Trim(lines[0]) == "" then [] else [Trim(lines[0])]) + NamedLines(lines[1..])
  }

  function WindowOf(windows: map<string, string>, name: string): string {
    if name in windows then windows[name] else ""
  }

  function RowsNamed(names: seq<string>, windows: map<string, string>): seq<Row> {
    seq(|names|, i requires 0 <= i < |names| => Row(names[i], WindowOf(windows, names[i])))
  }

  function Load(saved: Saved): seq<Row> {
    OrBlank(RowsNamed(NamedLines(SplitLines(saved.list)), saved.windows))
  }

  function NamesOf(rows: seq<Row>): seq<string> {
    seq(|rows|, i requires 0 <= i < |rows| => rows[i].name)
  }

  function WindowsOf(rows: seq<Row>): map<string, string> {
    if rows == [] then map[]
    else
      var last := rows[|rows| - 1];
      var windows := WindowsOf(rows[..|rows| - 1]);
      if last.window != "" then windows[last.name := last.window] else windows
  }

  function Save(rows: seq<Row>): Saved { Saved(JoinLines(NamesOf(Kept(rows))), WindowsOf(Kept(rows))) }

  method SerializeModelWindowRows(rows: seq<Row>) returns (saved: Saved)
    ensures saved == Save(rows)
  {
    hide Kept, Trim, Tidy;
    var names: seq<string>, windows: map<string, string> := [], map[];
    var merged := MergeModelWindowRows(rows, []);
    assert rows + [] == rows;
    ghost var kept := Kept(rows);
    KeptIsTidy(rows);
    var i := 0;
    while i < |merged|
      invariant i <= |merged|
      invariant kept != [] ==> names == NamesOf(kept[..i]) && windows == WindowsOf(kept[..i])
      invariant kept == [] ==> names == [] && windows == map[]
    {
      var name := Trim(merged[i].name);
      ghost var before := kept[..if kept == [] then 0 else i];
      if kept == [] {
        KeptOfBlank();
      } else {
        TidyRow(kept, i);
        assert kept[..i + 1][..i] == before;
        assert NamesOf(kept[..i + 1]) == NamesOf(before) + [kept[i].name];
      }
      if name != "" {
        names := names + [name];
        var window := Trim(merged[i].window);
        if window != "" {
          windows := windows[name := window];
        }
      }
      i := i + 1;
    }
    assert kept[..|kept|] == kept;
    saved := Saved(JoinLines(names), windows);
  }

  lemma TidyRow(rows: seq<Row>, i: nat)
    requires Tidy(rows) && i < |rows|
    ensures rows[i].name != "" && Trim(rows[i].name) == rows[i].name && Trim(rows[i].window) == rows[i].window
  {
    hide Trim;
    assert Clean(rows[i]) == rows[i];
  }

  lemma {:induction false} WindowsFound(rows: seq<Row>)
    requires Tidy(rows)
    ensures forall r <- rows :: WindowOf(WindowsOf(rows), r.name) == r.window
    ensures forall name <- WindowsOf(rows) :: exists r <- rows :: r.name == name
  {
    hide Trim;
    if rows != [] {
      var front, last := rows[..|rows| - 1], rows[|rows| - 1];
      WindowsFound(front);
      assert rows == front + [last];
      assert last in rows;
    }
  }

  lemma {:induction false} NamedLinesOfNames(names: seq<string>)
    requires forall name <- names :: name != "" && Trim(name) == name
    ensures NamedLines(names) == names
  {
    hide Trim;
    if names != [] {
      assert names[0] in names && forall name <- names[1..] :: name in names;
      NamedLinesOfNames(names[1..]);
      assert names == [names[0]] + names[1..];
    }
  }

  lemma {:induction false} NamedLinesHaveNoBreak(lines: seq<string>)
    requires forall line <- lines :: '\n' !in line
    ensures forall name <- NamedLines(lines) :: '\n' !in name
  {
    if lines != [] {
      assert lines[0] in lines;
      NamedLinesHaveNoBreak(lines[1..]);
      TrimKeepsOut(lines[0], '\n');
      hide Trim;
    }
  }

  lemma TrimKeepsOut(s: string, c: char)
    requires c !in s
    ensures c !in Trim(s)
  {
    hide IsJsSpace;
    var left := StripLeft(s, IsJsSpace);
    assert left == s[|s| - |left|..];
    assert StripRight(left, IsJsSpace) == left[..|StripRight(left, IsJsSpace)|];
  }

  lemma LoadOfTidy(rows: seq<Row>)
    requires Tidy(rows) && forall r <- rows :: '\n' !in r.name
    ensures Load(Saved(JoinLines(NamesOf(rows)), WindowsOf(rows))) == OrBlank(rows)
  {
    hide Trim, WindowOf, WindowsOf, SplitLines, JoinLines, NamedLines;
    var names := NamesOf(rows);
    if rows == [] {
      LoadOfNothing();
    } else {
      forall name <- names
        ensures name != "" && Trim(name) == name && '\n' !in name
      {
        var i :| 0 <= i < |rows| && names[i] == name;
        assert Clean(rows[i]) == rows[i];
      }
      SplitOfJoin(names);
      NamedLinesOfNames(names);
      WindowsFound(rows);
      assert RowsNamed(names, WindowsOf(rows)) == rows;
    }
  }

  lemma LoadOfNothing()
    ensures JoinLines([]) == "" && NamedLines(SplitLines("")) == []
  {
    KeptOfBlank();
    assert SplitLines("") == [""];
  }

  /** `at` lists, in order, the places of the lines that are not blank, and these are the names of the rows. */
  ghost predicate AreLines(lines: seq<string>, names: seq<string>, at: seq<nat>) {
    && |at| == |names|
    && (forall k :: 0 <= k < |at| ==> at[k] < |lines| && Trim(lines[at[k]]) == names[k] != "")
    && (forall k, l :: 0 <= k < l < |at| ==> at[k] < at[l])
    && forall i :: 0 <= i < |lines| && Trim(lines[i]) != "" ==> i in at
  }

  lemma {:induction false} NamedLinesAre(lines: seq<string>) returns (at: seq<nat>)
    ensures AreLines(lines, NamedLines(lines), at)
  {
    hide Trim;
    if lines == [] {
      at := [];
    } else {
      hide AreLines, NamedLines;
      var later := NamedLinesAre(lines[1..]);
      at := seq(|later|, k requires 0 <= k < |later| => later[k] + 1);
      LinesLater(lines, NamedLines(lines[1..]), later, at);
      NamedLinesMore(lines);
      if Trim(lines[0]) != "" {
        LinesMore(lines, NamedLines(lines[1..]), at);
        at := [0] + at;
      } else {
        LinesSame(lines, NamedLines(lines[1..]), at);
      }
    }
  }

  lemma NamedLinesMore(lines: seq<string>)
    requires lines != []
    ensures NamedLines(lines) ==
              if Trim(lines[0]) == "" then NamedLines(lines[1..]) else [Trim(lines[0])] + NamedLines(lines[1..])
  {
    hide Trim;
    assert [] + NamedLines(lines[1..]) == NamedLines(lines[1..]);
  }

  /** The same for the lines after the first. */
  ghost predicate AreLaterLines(lines: seq<string>, names: seq<string>, at: seq<nat>) {
    && |at| == |names|
    && (forall k :: 0 <= k < |at| ==> 0 < at[k] < |lines| && Trim(lines[at[k]]) == names[k] != "")
    && (forall k, l :: 0 <= k < l < |at| ==> at[k] < at[l])
    && forall i :: 0 < i < |lines| && Trim(lines[i]) != "" ==> i in at
  }

  lemma LinesLater(lines: seq<string>, names: seq<string>, later: seq<nat>, at: seq<nat>)
    requires lines != [] && AreLines(lines[1..], names, later)
    requires |at| == |later| && forall k :: 0 <= k < |at| ==> at[k] == later[k] + 1
    ensures AreLaterLines(lines, names, at)
  {
    hide Trim;
    assert forall k :: 0 <= k < |later| ==> lines[1..][later[k]] == lines[at[k]];
    forall i | 0 < i < |lines| && Trim(lines[i]) != ""
      ensures i in at
    {
      assert lines[1..][i - 1] == lines[i];
      var k :| 0 <= k < |later| && later[k] == i - 1;
      assert at[k] == i;
    }
  }

  lemma LinesMore(lines: seq<string>, names: seq<string>, at: seq<nat>)
    requires lines != [] && AreLaterLines(lines, names, at) && Trim(lines[0]) != ""
    ensures AreLines(lines, [Trim(lines[0])] + names, [0] + at)
  {
    hide Trim;
    var more := [0] + at;
    assert more[0] == 0 && forall i <- at :: i in more;
  }

  lemma LinesSame(lines: seq<string>, names: seq<string>, at: seq<nat>)
    requires lines != [] && AreLaterLines(lines, names, at) && Trim(lines[0]) == ""
    ensures AreLines(lines, names, at)
  {
    hide Trim;
  }

  /**
   Loading any stored text gives a row for every line that is not blank, in order, by the trimmed name and with the
   window stored for that name, and the placeholder row if there is none.
   */
  lemma LoadedAreLines(saved: Saved) returns (at: seq<nat>)
    ensures var rows, lines := Load(saved), SplitLines(saved.list);
            if forall line <- lines :: Trim(line) == "" then rows == [BLANK]
            else AreLines(lines, NamesOf(rows), at)
    ensures Load(saved) != [BLANK] ==>
              forall r <- Load(saved) :: r.window == if r.name in saved.windows then saved.windows[r.name] else ""
  {
    hide Trim, SplitLines, NamedLines;
    var lines := SplitLines(saved.list);
    at := NamedLinesAre(lines);
    var names := NamedLines(lines);
    assert NamesOf(RowsNamed(names, saved.windows)) == names;
    if names != [] {
      assert lines[at[0]] in lines;
    }
  }

  /** No name that is loaded holds a line break. */
  lemma LoadedNames(saved: Saved)
    ensures forall r <- Load(saved) :: '\n' !in r.name
  {
    hide Trim, SplitLines, NamedLines;
    NamedLinesHaveNoBreak(SplitLines(saved.list));
    var names := NamedLines(SplitLines(saved.list));
    assert forall i :: 0 <= i < |names| ==> names[i] in names;
  }

  lemma KeptBreaks(rows: seq<Row>)
    ensures (exists r <- Kept(rows) :: '\n' in r.name) <==> exists r <- rows :: '\n' in Trim(r.name)
  {
    hide Trim, Kept;
    KeptNames(rows);
    if r :| r in Kept(rows) && '\n' in r.name {
      var i :| 0 <= i < |rows| && Trim(rows[i].name) == r.name;
      assert rows[i] in rows;
    }
    if r :| r in rows && '\n' in Trim(r.name) {
      var i :| 0 <= i < |rows| && rows[i] == r;
      assert HasName(Kept(rows), Trim(rows[i].name));
    }
  }

  /** Loading what was saved gives the merged rows exactly when no name, once trimmed, holds a line break. */
  lemma LoadOfSave(rows: seq<Row>)
    ensures Load(Save(rows)) == Merge(rows, []) <==> forall r <- rows :: '\n' !in Trim(r.name)
  {
    hide Trim, Load, WindowsOf, JoinLines, Kept, Tidy, NamesOf;
    assert rows + [] == rows;
    KeptIsTidy(rows);
    KeptBreaks(rows);
    LoadedNames(Save(rows));
    if forall r <- Kept(rows) :: '\n' !in r.name {
      LoadOfTidy(Kept(rows));
    }
  }

  /** Saving does not see a merge: the stored form depends only on the merged rows. */
  lemma SaveOfMerge(a: seq<Row>, b: seq<Row>)
    ensures Save(Merge(a, b)) == Save(a + b)
  {
    hide Kept, Trim;
    BlankIsNothing(Kept(a + b), []);
    KeptTwice(a + b, []);
    assert OrBlank(Kept(a + b)) + [] == OrBlank(Kept(a + b));
    assert Kept(a + b) + [] == Kept(a + b);
    assert a + b + [] == a + b;
  }
}
