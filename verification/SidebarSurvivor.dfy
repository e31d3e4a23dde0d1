/**
 Which of a session's rows is left by a projection, told from the page as it was before.

 With a list to go to, a row the app put there itself beats the copies that earlier projections moved: the last
 unmarked row under the target stays. Every row that is looked at is moved, and so marked, when it is kept.
 */
module SidebarSurvivor {
  import opened Wrappers
  import opened SidebarOrder
  import opened SidebarLists
  import opened SidebarProjection
  import opened SidebarRest

  // ---------------------------------------------------------------------------------------------
  // First pass

  /** A row of the session that hangs under its target. */
  ghost predicate Candidate(p: Page, rows: seq<Row>, key: string, t: Target, j: nat) {
    j < |rows| && rows[j].key == key && Under(p, rows[j], t)
  }

  /**
   Of the candidates before `i`, row `c` is the one to keep. With a list to go to it is the last one without mark;
   without such a list the first one without mark; and if all have marks, it is the first.
   */
  ghost predicate Preferred(p: Page, rows: seq<Row>, i: nat, key: string, t: Target, c: nat) {
    && c < i && Candidate(p, rows, key, t, c)
    && if rows[c].id in p.marked then
         forall j: nat | j < i && Candidate(p, rows, key, t, j) :: rows[j].id in p.marked && c <= j
       else if Moves(p, t) then
         forall j: nat | c < j < i && Candidate(p, rows, key, t, j) :: rows[j].id in p.marked
       else
         forall j: nat | j < c && Candidate(p, rows, key, t, j) :: rows[j].id in p.marked
  }

  lemma PreferredIsUnique(p: Page, rows: seq<Row>, i: nat, key: string, t: Target, c: nat, d: nat)
    requires Preferred(p, rows, i, key, t, c) && Preferred(p, rows, i, key, t, d)
    ensures c == d
  {}

  /** So far this row is preferred and chosen; a move has marked it, and the rows to come have the marks they had. */
  ghost predicate Leading(p0: Page, p: Page, rows: seq<Row>, i: nat, key: string, t: Target) {
    && p.lists.Keys == p0.lists.Keys
    && (forall j: nat | i <= j < |rows| && rows[j].key == key :: rows[j].id in p.marked <==> rows[j].id in p0.marked)
    && if key in p.chosen then
         exists c: nat :: LeadingRow(p0, p, rows, i, key, t, c)
       else
         forall j: nat | j < i :: !Candidate(p0, rows, key, t, j)
  }

  ghost predicate LeadingRow(p0: Page, p: Page, rows: seq<Row>, i: nat, key: string, t: Target, c: nat) {
    && Preferred(p0, rows, i, key, t, c) && key in p.chosen && p.chosen[key] == rows[c].id
    && (rows[c].id in p.marked <==> rows[c].id in p0.marked || Moves(p0, t))
  }

  /** What one look at a row under its target decides. */
  lemma KeepDecides(p: Page, row: Row, projection: Projection)
    requires TargetOf(projection, row.key).Some? && Under(p, row, TargetOf(projection, row.key).value)
    ensures var q, t := Keep(p, row, projection), TargetOf(projection, row.key).value;
            if row.key in p.chosen && p.chosen[row.key] != row.id
                && !(p.chosen[row.key] in p.marked && row.id !in p.marked) then
              q.chosen == p.chosen && q.marked == p.marked
            else
              && q.chosen == p.chosen[row.key := row.id]
              && q.marked == if Moves(p, t) then p.marked + {row.id} else p.marked
  {
    hide Without, InsertedByTime;
  }

  lemma LeadOwn(p0: Page, p: Page, rows: seq<Row>, i: nat, projection: Projection)
    requires i < |rows| && DistinctIds(rows) && TargetOf(projection, rows[i].key).Some?
    requires Leading(p0, p, rows, i, rows[i].key, TargetOf(projection, rows[i].key).value)
    requires SamePlace(p0, p, rows[i].id)
    ensures Leading(p0, Keep(p, rows[i], projection), rows, i + 1, rows[i].key, TargetOf(projection, rows[i].key).value)
  {
    hide Keep, Preferred;
    var row, key := rows[i], rows[i].key;
    var t := TargetOf(projection, key).value;
    var q := Keep(p, row, projection);
    if Under(p, row, t) {
      KeepEffect(p, row, projection);
      KeepDecides(p, row, projection);
      if key in p.chosen {
        var c: nat :| LeadingRow(p0, p, rows, i, key, t, c);
        PreferredBefore(p0, rows, i, key, t, c);
        PreferredMore(p0, rows, i, key, t, c);
        assert rows[c].id != row.id;
        var d := if rows[c].id in p.marked && row.id !in p.marked then i else c;
        assert LeadingRow(p0, q, rows, i + 1, key, t, d);
      } else {
        FirstPreferred(p0, rows, i, key, t);
        assert LeadingRow(p0, q, rows, i + 1, key, t, i);
      }
    } else {
      NotUnderKeeps(p, row, projection);
      if key in p.chosen {
        var c: nat :| LeadingRow(p0, p, rows, i, key, t, c);
        PreferredMore(p0, rows, i, key, t, c);
        assert LeadingRow(p0, q, rows, i + 1, key, t, c);
      }
    }
  }

  lemma PreferredBefore(p: Page, rows: seq<Row>, i: nat, key: string, t: Target, c: nat)
    requires Preferred(p, rows, i, key, t, c)
    ensures c < i && c < |rows|
  {}

  /** One more row either takes over or leaves the preference as it is. */
  lemma PreferredMore(p: Page, rows: seq<Row>, i: nat, key: string, t: Target, c: nat)
    requires i < |rows| && Preferred(p, rows, i, key, t, c)
    ensures var over := (rows[c].id in p.marked || Moves(p, t)) && rows[i].id !in p.marked;
            Preferred(p, rows, i + 1, key, t, if Candidate(p, rows, key, t, i) && over then i else c)
  {}

  lemma FirstPreferred(p: Page, rows: seq<Row>, i: nat, key: string, t: Target)
    requires Candidate(p, rows, key, t, i) && forall j: nat | j < i :: !Candidate(p, rows, key, t, j)
    ensures Preferred(p, rows, i + 1, key, t, i)
  {}

  /** A step for another session leaves this one's choice and marks alone. */
  lemma KeepMarksOwn(p: Page, row: Row, projection: Projection, id: nat, key: string)
    requires id != row.id && key != row.key
    ensures var q := Keep(p, row, projection);
            && (id in q.marked <==> id in p.marked) && q.lists.Keys == p.lists.Keys
            && (key in q.chosen <==> key in p.chosen) && (key in p.chosen ==> q.chosen[key] == p.chosen[key])
  {
    hide Without, InsertedByTime;
  }

  lemma LeadOther(p0: Page, p: Page, rows: seq<Row>, i: nat, key: string, t: Target, projection: Projection)
    requires i < |rows| && DistinctIds(rows) && rows[i].key != key && Leading(p0, p, rows, i, key, t)
    ensures Leading(p0, Keep(p, rows[i], projection), rows, i + 1, key, t)
  {
    hide Keep, Preferred;
    var q := Keep(p, rows[i], projection);
    forall j: nat | j < |rows| && j != i
      ensures rows[j].id in q.marked <==> rows[j].id in p.marked
    {
      KeepMarksOwn(p, rows[i], projection, rows[j].id, key);
    }
    KeepMarksOwn(p, rows[i], projection, rows[i].id + 1, key);
    if key in p.chosen {
      var c: nat :| LeadingRow(p0, p, rows, i, key, t, c);
      PreferredBefore(p0, rows, i, key, t, c);
      PreferredMore(p0, rows, i, key, t, c);
      assert LeadingRow(p0, q, rows, i + 1, key, t, c);
    }
  }

  lemma {:induction false} LeadRun(p0: Page, rows: seq<Row>, n: nat, key: string, owner: Owner, projection: Projection)
    requires n <= |rows| && Scene(p0, rows, owner, projection) && p0.chosen == map[]
    requires TargetOf(projection, key).Some?
    ensures Leading(p0, KeepAll(p0, rows[..n], projection), rows, n, key, TargetOf(projection, key).value)
    decreases n
  {
    if n > 0 {
      hide Keep, Leading, Scene, Kept, OwnChoices;
      var p, t := KeepAll(p0, rows[..n - 1], projection), TargetOf(projection, key).value;
      assert rows[..n][..n - 1] == rows[..n - 1];
      LeadRun(p0, rows, n - 1, key, owner, projection);
      SceneDistinct(p0, rows, owner, projection);
      if rows[n - 1].key == key {
        var c := KeptRun(p0, rows, n - 1, key, owner, projection);
        NextIsUntouched(p0, p, rows, n - 1, c, key, t);
        LeadOwn(p0, p, rows, n - 1, projection);
      } else {
        LeadOther(p0, p, rows, n - 1, key, t, projection);
      }
    }
  }

  lemma SceneDistinct(p: Page, rows: seq<Row>, owner: Owner, projection: Projection)
    requires Scene(p, rows, owner, projection)
    ensures DistinctIds(rows) && forall j :: 0 <= j < |rows| ==> rows[j].id in p.parent
  {}

  lemma NextIsUntouched(p0: Page, p: Page, rows: seq<Row>, i: nat, c: int, key: string, t: Target)
    requires i < |rows| && rows[i].key == key && Kept(p0, p, rows, i, c, key, t)
    ensures SamePlace(p0, p, rows[i].id)
  {}

  /**
   The first pass leaves, of a session's rows under its target, the preferred one and removes the others; the rows
   elsewhere stay where they are.
   */
  lemma FirstPassKeepsPreferred(p: Page, rows: seq<Row>, owner: Owner, projection: Projection, key: string, c: nat)
    requires Scene(p, rows, owner, projection) && TargetOf(projection, key).Some?
    requires Preferred(p, rows, |rows|, key, TargetOf(projection, key).value, c)
    ensures var t := TargetOf(projection, key).value;
            var q := KeepAll(p.(chosen := map[]), rows, projection);
            forall j: nat | j < |rows| && rows[j].key == key ::
              if Candidate(p, rows, key, t, j) then rows[j].id in q.parent <==> j == c
              else SamePlace(p, q, rows[j].id)
  {
    hide KeepAll, Preferred, Leading;
    var t, p0 := TargetOf(projection, key).value, p.(chosen := map[]);
    var q := KeepAll(p0, rows, projection);
    assert rows[..|rows|] == rows;
    var d := KeptRun(p0, rows, |rows|, key, owner, projection);
    LeadRun(p0, rows, |rows|, key, owner, projection);
    PreferredIsChosen(p, q, rows, key, t, c);
    assert Candidate(p, rows, key, t, c) by { PreferredIsCandidate(p, rows, |rows|, key, t, c); }
    forall j: nat | j < |rows| && rows[j].key == key
      ensures if Candidate(p, rows, key, t, j) then rows[j].id in q.parent <==> j == c
              else SamePlace(p, q, rows[j].id)
    {
      assert Under(p0, rows[j], t) <==> Candidate(p, rows, key, t, j);
      assert j != c ==> rows[j].id != rows[c].id;
    }
  }

  lemma PreferredIsCandidate(p: Page, rows: seq<Row>, i: nat, key: string, t: Target, c: nat)
    requires Preferred(p, rows, i, key, t, c)
    ensures Candidate(p, rows, key, t, c)
  {}

  lemma PreferredIsChosen(p: Page, q: Page, rows: seq<Row>, key: string, t: Target, c: nat)
    requires Preferred(p, rows, |rows|, key, t, c)
    requires Leading(p.(chosen := map[]), q, rows, |rows|, key, t)
    ensures key in q.chosen && q.chosen[key] == rows[c].id
  {
    var p0 := p.(chosen := map[]);
    assert Candidate(p0, rows, key, t, c);
    SamePreference(p, rows, |rows|, key, t, c);
    var d: nat :| LeadingRow(p0, q, rows, |rows|, key, t, d);
    PreferredIsUnique(p0, rows, |rows|, key, t, c, d);
  }

  /** What was chosen before the passes plays no part. */
  lemma SamePreference(p: Page, rows: seq<Row>, i: nat, key: string, t: Target, c: nat)
    ensures Preferred(p, rows, i, key, t, c) <==> Preferred(p.(chosen := map[]), rows, i, key, t, c)
  {
    assert forall j: nat :: Candidate(p, rows, key, t, j) <==> Candidate(p.(chosen := map[]), rows, key, t, j);
  }

  // ---------------------------------------------------------------------------------------------
  // Second pass

  ghost predicate FirstOf(rows: seq<Row>, n: nat, key: string, c: nat) {
    c < n <= |rows| && rows[c].key == key && forall j: nat | j < c :: rows[j].key != key
  }

  /** What a run of the second pass makes of the session's choice: it stands, or falls on the first row. */
  ghost predicate ChosenLater(p1: Page, p: Page, rows: seq<Row>, n: nat, key: string, t: Target) {
    && p.lists.Keys == p1.lists.Keys
    && (key in p1.chosen ==> key in p.chosen && p.chosen[key] == p1.chosen[key])
    && (key !in p1.chosen && key in p.chosen ==>
          Moves(p, t) && exists c: nat :: FirstOf(rows, n, key, c) && p.chosen[key] == rows[c].id)
    && (key !in p.chosen && Moves(p, t) ==> forall j: nat | j < n <= |rows| :: rows[j].key != key)
    && (key in p.chosen && Moves(p, t) && (key in p1.chosen ==> p1.chosen[key] in p1.marked) ==>
          p.chosen[key] in p.marked)
  }

  lemma BringDecides(p: Page, row: Row, projection: Projection)
    ensures var q := Bring(p, row, projection);
            && q.lists.Keys == p.lists.Keys
            && (forall key | key != row.key :: (key in q.chosen <==> key in p.chosen)
                                               && (key in p.chosen ==> q.chosen[key] == p.chosen[key]))
            && (forall id | id != row.id :: id in q.marked <==> id in p.marked)
            && (TargetOf(projection, row.key).None? ==> row.id !in q.marked)
            && (TargetOf(projection, row.key).Some? ==> row.id in p.marked ==> row.id in q.marked)
  {
    hide Without, InsertedByTime;
  }

  lemma ChosenOwn(p1: Page, p: Page, rows: seq<Row>, i: nat, c: int, owner: Owner, projection: Projection)
    requires i < |rows| && DistinctIds(rows) && TargetOf(projection, rows[i].key).Some?
    requires var t := TargetOf(projection, rows[i].key).value;
             Brought(p1, p, rows, i, c, rows[i].key, t) && ChosenLater(p1, p, rows, i, rows[i].key, t)
    ensures ChosenLater(p1, Bring(p, rows[i], projection), rows, i + 1, rows[i].key,
        TargetOf(projection, rows[i].key).value)
  {
    hide Bring;
    var row, key := rows[i], rows[i].key;
    var t, q := TargetOf(projection, key).value, Bring(p, row, projection);
    BringEffect(p, row, projection);
    BringDecides(p, row, projection);
    BringMarks(p, row, projection);
    if key in p.chosen {
      if c: nat :| FirstOf(rows, i, key, c) && p.chosen[key] == rows[c].id {
        assert FirstOf(rows, i + 1, key, c);
      }
    } else if Moves(p, t) {
      assert FirstOf(rows, i + 1, key, i);
    }
  }

  lemma BringMarks(p: Page, row: Row, projection: Projection)
    requires TargetOf(projection, row.key).Some?
    ensures var q, t := Bring(p, row, projection), TargetOf(projection, row.key).value;
            !Under(p, row, t) && row.key !in p.chosen && Moves(p, t) ==> row.id in q.marked
  {
    hide Without, InsertedByTime;
  }

  lemma ChosenOther(p1: Page, p: Page, rows: seq<Row>, i: nat, key: string, t: Target, owner: Owner,
      projection: Projection)
    requires i < |rows| && rows[i].key != key && ChosenLater(p1, p, rows, i, key, t)
    requires OwnChoices(p, owner) && owner(rows[i].id) == rows[i].key
    ensures ChosenLater(p1, Bring(p, rows[i], projection), rows, i + 1, key, t)
  {
    hide Bring;
    BringDecides(p, rows[i], projection);
    if c: nat :| FirstOf(rows, i, key, c) && key in p.chosen && p.chosen[key] == rows[c].id {
      assert FirstOf(rows, i + 1, key, c);
    }
  }

  lemma {:induction false} ChosenRun(p1: Page, rows: seq<Row>, n: nat, c1: int, key: string, owner: Owner,
      projection: Projection)
    requires n <= |rows| && DistinctIds(rows) && OwnChoices(p1, owner)
    requires forall j :: 0 <= j < |rows| ==> owner(rows[j].id) == rows[j].key
    requires TargetOf(projection, key).Some?
    requires var t := TargetOf(projection, key).value;
             Brought(p1, p1, rows, 0, c1, key, t) && (t.home.Some? ==> t.home.value in t.under)
    ensures ChosenLater(p1, BringAll(p1, rows[..n], projection), rows, n, key, TargetOf(projection, key).value)
    decreases n
  {
    if n > 0 {
      hide Bring, Brought, OwnChoices, DistinctIds, ChosenLater;
      var p, t := BringAll(p1, rows[..n - 1], projection), TargetOf(projection, key).value;
      assert rows[..n][..n - 1] == rows[..n - 1];
      ChosenRun(p1, rows, n - 1, c1, key, owner, projection);
      var c := BroughtRun(p1, rows, n - 1, c1, key, owner, projection);
      if rows[n - 1].key == key {
        ChosenOwn(p1, p, rows, n - 1, c, owner, projection);
      } else {
        ChosenOther(p1, p, rows, n - 1, key, t, owner, projection);
      }
    }
  }

  // ---------------------------------------------------------------------------------------------
  // Both passes

  /** The row to keep: the preferred one of those under the target, else the first one if there is a list to go to. */
  ghost predicate Survives(p: Page, rows: seq<Row>, key: string, t: Target, c: nat) {
    || Preferred(p, rows, |rows|, key, t, c)
    || (Moves(p, t) && FirstOf(rows, |rows|, key, c) && forall j: nat :: !Candidate(p, rows, key, t, j))
  }

  /** The session is left alone: none of its rows is under the target and there is no list to go to. */
  ghost predicate LeftAlone(p: Page, rows: seq<Row>, key: string, t: Target) {
    !Moves(p, t) && forall j: nat :: !Candidate(p, rows, key, t, j)
  }

  /** What both passes make of one session, seen from the row they choose. */
  lemma SessionRun(p: Page, rows: seq<Row>, owner: Owner, projection: Projection, key: string) returns (c: int)
    requires Scene(p, rows, owner, projection) && TargetOf(projection, key).Some?
    ensures var t, p0 := TargetOf(projection, key).value, p.(chosen := map[]);
            var p1, q := KeepAll(p0, rows, projection), Projected(p, rows, projection);
            && Leading(p0, p1, rows, |rows|, key, t)
            && ChosenLater(p1, q, rows, |rows|, key, t)
            && Brought(p1, q, rows, |rows|, c, key, t)
            && forall j: nat | j < |rows| && rows[j].key == key && !Candidate(p, rows, key, t, j) ::
                 SamePlace(p, p1, rows[j].id)
  {
    hide KeepAll, BringAll, OwnChoices, Leading, ChosenLater;
    var t, p0 := TargetOf(projection, key).value, p.(chosen := map[]);
    assert rows[..|rows|] == rows;
    var c1 := KeptRun(p0, rows, |rows|, key, owner, projection);
    var p1 := KeepAll(p0, rows, projection);
    LeadRun(p0, rows, |rows|, key, owner, projection);
    KeptThenBrought(p0, p1, rows, c1, key, t);
    c := BroughtRun(p1, rows, |rows|, c1, key, owner, projection);
    ChosenRun(p1, rows, |rows|, c1, key, owner, projection);
  }

  lemma SurvivorIsChosen(p: Page, rows: seq<Row>, p1: Page, q: Page, key: string, t: Target, c: nat)
    requires Survives(p, rows, key, t, c)
    requires Leading(p.(chosen := map[]), p1, rows, |rows|, key, t) && ChosenLater(p1, q, rows, |rows|, key, t)
    ensures key in q.chosen && q.chosen[key] == rows[c].id && (Moves(p, t) ==> rows[c].id in q.marked)
  {
    var p0 := p.(chosen := map[]);
    SamePreference(p, rows, |rows|, key, t, c);
    if Preferred(p, rows, |rows|, key, t, c) {
      assert Candidate(p0, rows, key, t, c);
      var d: nat :| LeadingRow(p0, p1, rows, |rows|, key, t, d);
      PreferredIsUnique(p0, rows, |rows|, key, t, c, d);
    } else {
      assert forall j: nat :: Candidate(p0, rows, key, t, j) <==> Candidate(p, rows, key, t, j);
      assert key !in p1.chosen;
      assert rows[c].key == key;
    }
  }

  /**
   Exactly one row of a moved session is left, and this is which: of those under the target the last one without
   mark if there is a list to go to, else the first one without mark; the first one if all are marked; and if
   there is none, the first row of the session, which is brought into the list. It is marked, and shown once in
   the list, with the target's time if that has one.
   */
  lemma SurvivorIs(p: Page, rows: seq<Row>, owner: Owner, projection: Projection, key: string, c: nat)
    requires Scene(p, rows, owner, projection) && key != "" && key in projection
    requires Survives(p, rows, key, projection[key], c)
    ensures var q, t := Projected(p, rows, projection), projection[key];
            && (forall j: nat | j < |rows| && rows[j].key == key :: rows[j].id in q.parent <==> j == c)
            && (Moves(p, t) ==>
                  var x := rows[c];
                  && q.parent[x.id] == t.home.value && t.home.value in q.lists && x.id in q.marked
                  && RowsWith(Threads(q.lists[t.home.value]), x.id) ==
                       [Row(x.id, key, x.pinned, if t.sortMs > 0 then t.sortMs else x.sortMs)])
  {
    hide Projected, Survives, Leading, ChosenLater;
    var q, t := Projected(p, rows, projection), TargetOf(projection, key).value;
    var d := SessionRun(p, rows, owner, projection, key);
    SurvivorIsChosen(p, rows, KeepAll(p.(chosen := map[]), rows, projection), q, key, t, c);
    SurvivorIsRow(p, rows, key, t, c);
    assert q.lists.Keys == p.lists.Keys by { ChosenKeys(p, rows, owner, projection, key); }
    SceneDistinct(p, rows, owner, projection);
    assert forall j: nat | j < |rows| && j != c :: rows[j].id != rows[c].id;
    ProjectedSessionRests(p, rows, owner, projection, rows[c]);
  }

  lemma SurvivorIsRow(p: Page, rows: seq<Row>, key: string, t: Target, c: nat)
    requires Survives(p, rows, key, t, c)
    ensures c < |rows| && rows[c].key == key
  {}

  lemma ChosenKeys(p: Page, rows: seq<Row>, owner: Owner, projection: Projection, key: string)
    requires Scene(p, rows, owner, projection) && TargetOf(projection, key).Some?
    ensures Projected(p, rows, projection).lists.Keys == p.lists.Keys
  {
    hide Projected, KeepAll, Brought, LeadingRow;
    var c := SessionRun(p, rows, owner, projection, key);
  }

  /** Otherwise no row of the session changes its place. */
  lemma SessionIsLeftAlone(p: Page, rows: seq<Row>, owner: Owner, projection: Projection, key: string)
    requires Scene(p, rows, owner, projection) && key != "" && key in projection
    requires LeftAlone(p, rows, key, projection[key])
    ensures forall j: nat | j < |rows| && rows[j].key == key :: SamePlace(p, Projected(p, rows, projection), rows[j].id)
  {
    hide Projected, KeepAll;
    var t, p0 := TargetOf(projection, key).value, p.(chosen := map[]);
    var c := SessionRun(p, rows, owner, projection, key);
    assert forall j: nat :: Candidate(p0, rows, key, t, j) <==> Candidate(p, rows, key, t, j);
    var p1 := KeepAll(p0, rows, projection);
    assert key !in p1.chosen && key !in Projected(p, rows, projection).chosen;
    forall j: nat | j < |rows| && rows[j].key == key
      ensures SamePlace(p, Projected(p, rows, projection), rows[j].id)
    {
      assert !Candidate(p, rows, key, t, j);
    }
  }

  /** There is always a row to keep unless the session is left alone. */
  lemma SomeRowSurvives(p: Page, rows: seq<Row>, key: string, t: Target, i: nat) returns (c: nat)
    requires i < |rows| && rows[i].key == key
    ensures Survives(p, rows, key, t, c) <==> !LeftAlone(p, rows, key, t)
  {
    c := 0;
    if j: nat :| Candidate(p, rows, key, t, j) {
      c := SomePreferred(p, rows, |rows|, key, t, j);
    } else if Moves(p, t) {
      c := SomeFirst(rows, i, key);
    }
  }

  lemma {:induction false} SomePreferred(p: Page, rows: seq<Row>, i: nat, key: string, t: Target, j: nat)
      returns (c: nat)
    requires j < i <= |rows| && Candidate(p, rows, key, t, j)
    ensures Preferred(p, rows, i, key, t, c)
  {
    if k: nat :| k < i - 1 && Candidate(p, rows, key, t, k) {
      var d := SomePreferred(p, rows, i - 1, key, t, k);
      PreferredMore(p, rows, i - 1, key, t, d);
      var over := (rows[d].id in p.marked || Moves(p, t)) && rows[i - 1].id !in p.marked;
      c := if Candidate(p, rows, key, t, i - 1) && over then i - 1 else d;
    } else {
      c := j;
      FirstPreferred(p, rows, i - 1, key, t);
    }
  }

  lemma {:induction false} SomeFirst(rows: seq<Row>, i: nat, key: string) returns (c: nat)
    requires i < |rows| && rows[i].key == key
    ensures FirstOf(rows, |rows|, key, c)
  {
    if j: nat :| j < i && rows[j].key == key {
      c := SomeFirst(rows, j, key);
    } else {
      c := i;
    }
  }

  /** A row of a session that is not moved loses its mark. */
  lemma UnmovedRowLosesItsMark(p: Page, rows: seq<Row>, projection: Projection, i: nat)
    requires i < |rows| && DistinctIds(rows) && (rows[i].key == "" || rows[i].key !in projection)
    ensures rows[i].id !in Projected(p, rows, projection).marked
  {
    assert rows[..|rows|] == rows;
    UnmarkedRun(KeepAll(p.(chosen := map[]), rows, projection), rows, |rows|, projection, i);
  }

  lemma {:induction false} UnmarkedRun(p: Page, rows: seq<Row>, n: nat, projection: Projection, i: nat)
    requires i < n <= |rows| && DistinctIds(rows) && TargetOf(projection, rows[i].key).None?
    ensures rows[i].id !in BringAll(p, rows[..n], projection).marked
  {
    hide Bring;
    assert rows[..n][..n - 1] == rows[..n - 1];
    BringDecides(BringAll(p, rows[..n - 1], projection), rows[n - 1], projection);
    if i < n - 1 {
      UnmarkedRun(p, rows, n - 1, projection, i);
    }
  }
}
