/**
 The projection comes to rest: carrying it out again on what it left changes no list and moves no row, whichever
 of the rows are found then and in whatever order.
 */
module SidebarRest {
  import opened Wrappers
  import opened SidebarOrder
  import opened SidebarLists
  import opened SidebarProjection

  // ---------------------------------------------------------------------------------------------
  // A row in a list

  /** What a list shows under an identity. */
  function RowsWith(rows: seq<Row>, id: nat): seq<Row> {
    if rows == [] then []
    else if rows[0].id == id then [rows[0]] + RowsWith(rows[1..], id)
    else RowsWith(rows[1..], id)
  }

  lemma {:induction false} RowsWithSplit(a: seq<Row>, b: seq<Row>, id: nat)
    ensures RowsWith(a + b, id) == RowsWith(a, id) + RowsWith(b, id)
  {
    if a == [] {
      assert a + b == b;
    } else {
      var r, rest := a[0], a[1..];
      assert (a + b)[0] == r && (a + b)[1..] == rest + b;
      var own := if r.id == id then [r] else [];
      assert RowsWith(a, id) == own + RowsWith(rest, id);
      assert RowsWith(a + b, id) == own + RowsWith(rest + b, id);
      hide RowsWith;
      RowsWithSplit(rest, b, id);
      Associative(own, RowsWith(rest, id), RowsWith(b, id));
    }
  }

  lemma {:induction false} RowsWithWithout(rows: seq<Row>, removed: nat, id: nat)
    ensures RowsWith(RowsWithout(rows, {removed}), id) == if id == removed then [] else RowsWith(rows, id)
  {
    if rows != [] {
      RowsWithWithout(rows[1..], removed, id);
    }
  }

  lemma RowsWithOne(row: Row, id: nat)
    ensures RowsWith([row], id) == if row.id == id then [row] else []
  {
    assert [row][1..] == [];
  }

  lemma {:induction false} NoneWith(rows: seq<Row>, id: nat)
    ensures RowsWith(rows, id) == [] <==> forall i :: 0 <= i < |rows| ==> rows[i].id != id
  {
    if rows != [] {
      NoneWith(rows[1..], id);
      assert forall i :: 0 < i < |rows| ==> rows[1..][i - 1] == rows[i];
    }
  }

  /** A row that is shown once has one place. */
  lemma {:induction false} PlaceOf(rows: seq<Row>, x: Row) returns (j: nat)
    requires RowsWith(rows, x.id) == [x]
    ensures j < |rows| && rows[j] == x && RowsWithout(rows, {x.id}) == rows[..j] + rows[j + 1..]
  {
    var r, rest := rows[0], rows[1..];
    if r.id == x.id {
      j := 0;
      assert RowsWith(rows, x.id) == [r] + RowsWith(rest, x.id);
      hide RowsWith;
      assert RowsWith(rest, x.id) == [x][1..] == [];
      NoneWith(rest, x.id);
      NothingToRemove(rest, x.id);
      assert rows[..0] + rest == rest;
    } else {
      var k := PlaceOf(rest, x);
      j := k + 1;
      hide RowsWith;
      PlaceLater(r, rest, k);
      assert rows == [r] + rest;
    }
  }

  lemma PlaceLater(r: Row, rest: seq<Row>, k: nat)
    requires k < |rest|
    ensures var rows := [r] + rest;
            rows[k + 1] == rest[k] && rows[..k + 1] + rows[k + 2..] == [r] + (rest[..k] + rest[k + 1..])
  {
    assert ([r] + rest)[..k + 1] == [r] + rest[..k];
    assert ([r] + rest)[k + 2..] == rest[k + 1..];
  }

  lemma {:induction false} NothingToRemove(rows: seq<Row>, id: nat)
    requires forall i :: 0 <= i < |rows| ==> rows[i].id != id
    ensures RowsWithout(rows, {id}) == rows
  {
    if rows != [] {
      NothingToRemove(rows[1..], id);
    }
  }

  lemma InsertedRows(items: seq<Item>, row: Row, id: nat)
    ensures RowsWith(Threads(InsertedByTime(items, row)), id) ==
              if id == row.id then [row] else RowsWith(Threads(items), id)
  {
    hide Without, Threads, FirstLater, Front, RowsWith, RowsWithout;
    var rest := Without(items, {row.id});
    var later := FirstLater(rest, row);
    var k := if later < |rest| then later else |Front(rest)|;
    WithoutThreads(items, {row.id});
    RowsWithWithout(Threads(items), row.id, id);
    assert rest == rest[..k] + rest[k..];
    ThreadsSplit(rest[..k], rest[k..]);
    ThreadsSplit(rest[..k], [Thread(row)]);
    ThreadsSplit(rest[..k] + [Thread(row)], rest[k..]);
    OneThread(row);
    RowsWithOne(row, id);
    var a, b := Threads(rest[..k]), Threads(rest[k..]);
    RowsWithSplit(a, b, id);
    RowsWithSplit(a, [row], id);
    RowsWithSplit(a + [row], b, id);
    Sandwich(RowsWith(a, id), RowsWith(b, id), RowsWith([row], id));
  }

  lemma OneThread(row: Row)
    ensures Threads([Thread(row)]) == [row]
  {
    assert [Thread(row)][1..] == [];
  }

  lemma Sandwich(a: seq<Row>, b: seq<Row>, x: seq<Row>)
    ensures x == [] ==> a + x + b == a + b
    ensures a + b == [] ==> a + x + b == x
  {}

  /** Every other row of the list stands clearly before or after. */
  ghost predicate NoTie(items: seq<Item>, x: Row) {
    forall y <- Threads(items) :: y.id != x.id ==> Before(x, y) || Before(y, x)
  }

  /** Inserting a row where it stands already, in a tidy list without ties, changes nothing. */
  lemma InsertionIsIdle(items: seq<Item>, x: Row)
    requires Tidy(items) && RowsWith(Threads(items), x.id) == [x] && NoTie(items, x)
    ensures InsertedByTime(items, x) == items
  {
    hide Before, Without, Threads, Plains, FirstLater, Front, RowsWith, RowsWithout, Sorted;
    var t := Threads(items);
    var j := PlaceOf(t, x);
    var rest := Without(items, {x.id});
    var u := t[..j] + t[j + 1..];
    WithoutKeepsTidy(items, {x.id});
    WithoutThreads(items, {x.id});
    var k := InsertPlace(rest, x);
    PlaceIsSame(items, x, j, k);
    InsertedAssembled(rest, x, k);
    assert u[..j] == t[..j] && u[j..] == t[j + 1..];
    assert t[..j] + [x] + t[j + 1..] == t;
  }

  lemma PlaceIsSame(items: seq<Item>, x: Row, j: nat, k: nat)
    requires Sorted(Threads(items)) && NoTie(items, x) && j < |Threads(items)| && Threads(items)[j] == x
    requires RowsWith(Threads(items), x.id) == [x]
    requires var u := Threads(items)[..j] + Threads(items)[j + 1..];
             && k <= |u| && (forall i :: 0 <= i < k ==> !Before(x, u[i])) && (k < |u| ==> Before(x, u[k]))
    ensures k == j
  {
    hide Before, Threads, RowsWith;
    var t := Threads(items);
    var u := t[..j] + t[j + 1..];
    forall i | 0 <= i < |u|
      ensures Before(x, u[i]) <==> j <= i
    {
      if i < j {
        assert u[i] == t[i] && !Before(t[j], t[i]);
      } else {
        assert u[i] == t[i + 1] && !Before(t[i + 1], t[j]);
        OnlyOne(t, x, j, i + 1);
        assert t[i + 1] in t;
      }
    }
    assert j < |u| ==> Before(x, u[j]);
  }

  lemma OnlyOne(t: seq<Row>, x: Row, j: nat, i: nat)
    requires RowsWith(t, x.id) == [x] && j < i < |t| && t[j] == x
    ensures t[i].id != x.id
  {
    hide RowsWith;
    RowsWithSplit(t[..i], t[i..], x.id);
    assert t == t[..i] + t[i..];
    NoneWith(t[..i], x.id);
    assert t[..i][j] == x;
    NoneWith(t[i..], x.id);
    assert t[i..][0] == t[i];
  }

  // ---------------------------------------------------------------------------------------------
  // What a run leaves of a row that it has placed

  /** Nothing happened to this row. */
  ghost predicate SameRow(p: Page, q: Page, id: nat) {
    && q.lists.Keys == p.lists.Keys && SamePlace(p, q, id)
    && forall l <- p.lists :: RowsWith(Threads(q.lists[l]), id) == RowsWith(Threads(p.lists[l]), id)
  }

  lemma SameRowTwice(p: Page, q: Page, r: Page, id: nat)
    requires SameRow(p, q, id) && SameRow(q, r, id)
    ensures SameRow(p, r, id)
  {
    hide RowsWith, Threads;
    forall l <- p.lists
      ensures RowsWith(Threads(r.lists[l]), id) == RowsWith(Threads(p.lists[l]), id)
    {
      assert RowsWith(Threads(q.lists[l]), id) == RowsWith(Threads(p.lists[l]), id);
    }
  }

  lemma ChooseSameRow(p: Page, row: Row, id: nat)
    ensures SameRow(p, Choose(p, row), id)
  {
    hide RowsWith, Threads;
  }

  lemma DetachSameRow(p: Page, removed: nat, id: nat)
    requires id != removed
    ensures SameRow(p, Detach(p, removed), id)
  {
    hide RowsWith, Threads, Without, RowsWithout;
    var q := Detach(p, removed);
    DetachPlaces(p, removed);
    forall l <- p.lists
      ensures RowsWith(Threads(q.lists[l]), id) == RowsWith(Threads(p.lists[l]), id)
    {
      WithoutThreads(p.lists[l], {removed});
      RowsWithWithout(Threads(p.lists[l]), removed, id);
    }
  }

  lemma MoveSameRow(p: Page, row: Row, t: Target, id: nat)
    requires id != row.id
    ensures SameRow(p, Move(p, row, t), id)
  {
    hide RowsWith, Threads, InsertedByTime, Detach;
    if Moves(p, t) {
      var q, r := Detach(p, row.id), Move(p, row, t);
      DetachSameRow(p, row.id, id);
      InsertedRows(q.lists[t.home.value], Dated(row, t), id);
      assert SameRow(q, r, id);
      SameRowTwice(p, q, r, id);
    } else {
      assert SameRow(p, p, id);
    }
  }

  /** A row of a moved session where a move leaves it: shown once, with the target's time, under its list. */
  ghost predicate Stands(p: Page, row: Row, t: Target) {
    Moves(p, t) ==>
      && row.id in p.parent && p.parent[row.id] == t.home.value
      && RowsWith(Threads(p.lists[t.home.value]), row.id) == [Dated(row, t)]
  }

  lemma MovedStands(p: Page, row: Row, t: Target)
    ensures Stands(Move(p, row, t), row, t)
  {
    hide RowsWith, Threads, InsertedByTime, Detach;
    if Moves(p, t) {
      DetachPlaces(p, row.id);
      var q := Detach(p, row.id);
      InsertedRows(q.lists[t.home.value], Dated(row, t), row.id);
    }
  }

  lemma StandsOn(p: Page, q: Page, row: Row, t: Target)
    requires Stands(p, row, t) && SameRow(p, q, row.id)
    ensures Stands(q, row, t)
  {
    hide RowsWith, Threads;
  }

  /** The rows chosen so far stand where a move leaves them. */
  ghost predicate ChosenStand(p: Page, rows: seq<Row>, projection: Projection) {
    forall j :: 0 <= j < |rows| ==> ChosenStands(p, rows[j], projection)
  }

  ghost predicate ChosenStands(p: Page, row: Row, projection: Projection) {
    row.key in p.chosen && p.chosen[row.key] == row.id && TargetOf(projection, row.key).Some? ==>
      Stands(p, row, TargetOf(projection, row.key).value)
  }

  lemma KeepStands(p: Page, row: Row, other: Row, projection: Projection, owner: Owner)
    requires OwnChoices(p, owner) && owner(row.id) == row.key && owner(other.id) == other.key
    requires row.id == other.id ==> row == other
    requires ChosenStands(p, other, projection)
    ensures ChosenStands(Keep(p, row, projection), other, projection)
  {
    hide Move, Detach, Stands, SameRow;
    var q := Keep(p, row, projection);
    if TargetOf(projection, row.key).Some? && Under(p, row, TargetOf(projection, row.key).value) {
      var t := TargetOf(projection, row.key).value;
      if row.key in p.chosen && p.chosen[row.key] != row.id {
        var existing := p.chosen[row.key];
        var without := Detach(p, existing);
        DetachPlaces(p, existing);
        DetachPlaces(p, row.id);
        MovePlaces(Choose(without, row), row, t);
        if existing in p.marked && row.id !in p.marked {
          if other == row {
            MovedStands(Choose(without, row), row, t);
          } else if other.id != existing {
            DetachSameRow(p, existing, other.id);
            MoveOn(p, without, row, t, other, projection);
          }
        } else if other != row {
          DetachSameRow(p, row.id, other.id);
          KeptStands(p, q, other, projection);
        }
      } else {
        MovePlaces(Choose(p, row), row, t);
        if other == row {
          MovedStands(Choose(p, row), row, t);
        } else {
          SameRowSelf(p, other.id);
          MoveOn(p, p, row, t, other, projection);
        }
      }
    }
  }

  lemma SameRowSelf(p: Page, id: nat)
    ensures SameRow(p, p, id)
  {}

  lemma KeptStands(p: Page, q: Page, other: Row, projection: Projection)
    requires ChosenStands(p, other, projection) && SameRow(p, q, other.id)
    requires other.key in q.chosen && q.chosen[other.key] == other.id ==>
               other.key in p.chosen && p.chosen[other.key] == other.id
    ensures ChosenStands(q, other, projection)
  {
    hide Stands, SameRow;
    if ChosenStands(q, other, projection) {
    } else {
      StandsOn(p, q, other, TargetOf(projection, other.key).value);
    }
  }

  /** Choosing and moving one row leaves what is said of another. */
  lemma MoveOn(p: Page, a: Page, row: Row, t: Target, other: Row, projection: Projection)
    requires ChosenStands(p, other, projection) && SameRow(p, a, other.id) && a.chosen == p.chosen
    requires other.id != row.id
    ensures ChosenStands(Move(Choose(a, row), row, t), other, projection)
  {
    hide Move, Stands, SameRow;
    var b := Choose(a, row);
    ChooseSameRow(a, row, other.id);
    SameRowTwice(p, a, b, other.id);
    MoveSameRow(b, row, t, other.id);
    SameRowTwice(p, b, Move(b, row, t), other.id);
    MovePlaces(b, row, t);
    KeptStands(p, Move(b, row, t), other, projection);
  }

  lemma BringStands(p: Page, row: Row, other: Row, projection: Projection, owner: Owner)
    requires OwnChoices(p, owner) && owner(row.id) == row.key && owner(other.id) == other.key
    requires row.id == other.id ==> row == other
    requires ChosenStands(p, other, projection)
    requires TargetOf(projection, row.key).Some? ==>
               var t := TargetOf(projection, row.key).value; t.home.Some? ==> t.home.value in t.under
    ensures ChosenStands(Bring(p, row, projection), other, projection)
  {
    hide Move, Detach, Stands, SameRow;
    if TargetOf(projection, row.key).None? {
      MarkedAside(p, row, other, projection);
    } else if !Under(p, row, TargetOf(projection, row.key).value) {
      var t := TargetOf(projection, row.key).value;
      if row.key in p.chosen {
        DetachPlaces(p, row.id);
        if other.id != row.id {
          DetachSameRow(p, row.id, other.id);
          KeptStands(p, Detach(p, row.id), other, projection);
        } else {
          RemovedStands(p, row, projection);
        }
      } else if Moves(p, t) {
        var q := Move(p, row, t);
        MovePlaces(p, row, t);
        ChooseSameRow(q, row, other.id);
        if other.id != row.id {
          MoveSameRow(p, row, t, other.id);
          SameRowTwice(p, q, Choose(q, row), other.id);
          KeptStands(p, Choose(q, row), other, projection);
        } else {
          MovedStands(p, row, t);
          StandsOn(q, Choose(q, row), row, t);
        }
      }
    }
  }

  lemma MarkedAside(p: Page, row: Row, other: Row, projection: Projection)
    requires ChosenStands(p, other, projection)
    ensures ChosenStands(p.(marked := p.marked - {row.id}), other, projection)
  {
    hide RowsWith, Threads;
  }

  /** A chosen row that is not under its target belongs to a target without a list. */
  lemma RemovedStands(p: Page, row: Row, projection: Projection)
    requires TargetOf(projection, row.key).Some? && ChosenStands(p, row, projection)
    requires var t := TargetOf(projection, row.key).value;
             !Under(p, row, t) && (t.home.Some? ==> t.home.value in t.under)
    ensures ChosenStands(Detach(p, row.id), row, projection)
  {
    hide RowsWith, Threads, Without;
  }

  lemma {:induction false} KeepAllStands(p: Page, rows: seq<Row>, all: seq<Row>, projection: Projection, owner: Owner)
    requires p.chosen == map[] && DistinctIds(all) && (forall r <- rows :: r in all)
    requires forall r <- all :: owner(r.id) == r.key
    ensures var q := KeepAll(p, rows, projection);
            OwnChoices(q, owner) && forall r <- all :: ChosenStands(q, r, projection)
  {
    if rows != [] {
      hide Keep, ChosenStands, OwnChoices;
      var front, row := rows[..|rows| - 1], rows[|rows| - 1];
      assert row in rows && forall r <- front :: r in rows;
      KeepAllStands(p, front, all, projection, owner);
      var q := KeepAll(p, front, projection);
      KeepIsLocal(q, row, projection, owner);
      forall other <- all
        ensures ChosenStands(Keep(q, row, projection), other, projection)
      {
        SameIdSameRow(all, row, other);
        KeepStands(q, row, other, projection, owner);
      }
    }
  }

  lemma SameIdSameRow(all: seq<Row>, a: Row, b: Row)
    requires DistinctIds(all) && a in all && b in all
    ensures a.id == b.id ==> a == b
  {
    var i :| 0 <= i < |all| && all[i] == a;
    var j :| 0 <= j < |all| && all[j] == b;
  }

  lemma {:induction false} BringAllStands(p: Page, rows: seq<Row>, all: seq<Row>, projection: Projection, owner: Owner)
    requires OwnChoices(p, owner) && DistinctIds(all) && (forall r <- rows :: r in all)
    requires forall r <- all :: owner(r.id) == r.key
    requires forall r <- all :: ChosenStands(p, r, projection)
    requires forall key <- projection ::
               projection[key].home.Some? ==> projection[key].home.value in projection[key].under
    ensures var q := BringAll(p, rows, projection);
            OwnChoices(q, owner) && forall r <- all :: ChosenStands(q, r, projection)
  {
    if rows != [] {
      hide Bring, ChosenStands, OwnChoices;
      var front, row := rows[..|rows| - 1], rows[|rows| - 1];
      assert row in rows && forall r <- front :: r in rows;
      BringAllStands(p, front, all, projection, owner);
      var q := BringAll(p, front, projection);
      BringIsLocal(q, row, projection, owner);
      forall other <- all
        ensures ChosenStands(Bring(q, row, projection), other, projection)
      {
        SameIdSameRow(all, row, other);
        BringStands(q, row, other, projection, owner);
      }
    }
  }

  // ---------------------------------------------------------------------------------------------
  // Lists that show rows of the sessions they belong to

  /** What a list shows under an identity has the key of the session that the identity belongs to. */
  ghost predicate OwnItems(p: Page, owner: Owner) {
    forall l <- p.lists :: OwnRows(Threads(p.lists[l]), owner)
  }

  ghost predicate OwnRows(rows: seq<Row>, owner: Owner) { forall r <- rows :: owner(r.id) == r.key }

  /** The rows looked at are all rows of the page. */
  ghost predicate AllRows(p: Page, rows: seq<Row>) {
    forall id <- p.parent :: exists r <- rows :: r.id == id
  }

  lemma OwnRowsInserted(items: seq<Item>, row: Row, owner: Owner)
    requires OwnRows(Threads(items), owner) && owner(row.id) == row.key
    ensures OwnRows(Threads(InsertedByTime(items, row)), owner)
  {
    hide Without, Threads, FirstLater, Front;
    var rest := Without(items, {row.id});
    var later := FirstLater(rest, row);
    var k := if later < |rest| then later else |Front(rest)|;
    WithoutThreads(items, {row.id});
    assert rest == rest[..k] + rest[k..];
    ThreadsSplit(rest[..k], rest[k..]);
    ThreadsSplit(rest[..k], [Thread(row)]);
    ThreadsSplit(rest[..k] + [Thread(row)], rest[k..]);
    OneThread(row);
    OwnRowsJoin(Threads(rest[..k]), Threads(rest[k..]), row, owner);
  }

  lemma OwnRowsJoin(a: seq<Row>, b: seq<Row>, row: Row, owner: Owner)
    requires OwnRows(a + b, owner) && owner(row.id) == row.key
    ensures OwnRows(a + [row] + b, owner)
  {
    assert forall r :: r in a + [row] + b ==> r in a + b || r == row;
  }

  lemma DetachOwn(p: Page, id: nat, owner: Owner, rows: seq<Row>)
    requires OwnItems(p, owner) && AllRows(p, rows)
    ensures OwnItems(Detach(p, id), owner) && AllRows(Detach(p, id), rows)
  {
    hide Threads, Without, RowsWithout;
    forall l <- p.lists
      ensures OwnRows(Threads(Detach(p, id).lists[l]), owner)
    {
      WithoutThreads(p.lists[l], {id});
    }
  }

  lemma MoveOwn(p: Page, row: Row, t: Target, owner: Owner, rows: seq<Row>)
    requires OwnItems(p, owner) && AllRows(p, rows) && owner(row.id) == row.key && row in rows
    ensures OwnItems(Move(p, row, t), owner) && AllRows(Move(p, row, t), rows)
  {
    hide Threads, InsertedByTime, Detach, OwnRows;
    if Moves(p, t) {
      var q := Detach(p, row.id);
      DetachPlaces(p, row.id);
      DetachOwn(p, row.id, owner, rows);
      OwnRowsInserted(q.lists[t.home.value], Dated(row, t), owner);
    }
  }

  lemma SameOwn(p: Page, q: Page, owner: Owner, rows: seq<Row>)
    requires OwnItems(p, owner) && AllRows(p, rows) && q.lists == p.lists && q.parent == p.parent
    ensures OwnItems(q, owner) && AllRows(q, rows)
  {
    hide Threads, OwnRows;
  }

  lemma KeepOwn(p: Page, row: Row, projection: Projection, owner: Owner, rows: seq<Row>)
    requires OwnItems(p, owner) && AllRows(p, rows) && owner(row.id) == row.key && row in rows
    ensures var q := Keep(p, row, projection); OwnItems(q, owner) && AllRows(q, rows)
  {
    hide Move, Detach, OwnItems, AllRows;
    if TargetOf(projection, row.key).Some? {
      var t := TargetOf(projection, row.key).value;
      DetachOwn(p, row.id, owner, rows);
      SameOwn(p, Choose(p, row), owner, rows);
      MoveOwn(Choose(p, row), row, t, owner, rows);
      if row.key in p.chosen {
        var a := Detach(p, p.chosen[row.key]);
        DetachOwn(p, p.chosen[row.key], owner, rows);
        SameOwn(a, Choose(a, row), owner, rows);
        MoveOwn(Choose(a, row), row, t, owner, rows);
      }
    }
  }

  lemma BringOwn(p: Page, row: Row, projection: Projection, owner: Owner, rows: seq<Row>)
    requires OwnItems(p, owner) && AllRows(p, rows) && owner(row.id) == row.key && row in rows
    ensures var q := Bring(p, row, projection); OwnItems(q, owner) && AllRows(q, rows)
  {
    hide Move, Detach, OwnItems, AllRows;
    SameOwn(p, p.(marked := p.marked - {row.id}), owner, rows);
    DetachOwn(p, row.id, owner, rows);
    if TargetOf(projection, row.key).Some? {
      var t := TargetOf(projection, row.key).value;
      MoveOwn(p, row, t, owner, rows);
      SameOwn(Move(p, row, t), Choose(Move(p, row, t), row), owner, rows);
    }
  }

  lemma {:induction false} KeepAllOwn(p: Page, rows: seq<Row>, all: seq<Row>, projection: Projection, owner: Owner)
    requires OwnItems(p, owner) && AllRows(p, all)
    requires (forall r <- rows :: r in all) && forall r <- all :: owner(r.id) == r.key
    ensures var q := KeepAll(p, rows, projection); OwnItems(q, owner) && AllRows(q, all)
  {
    if rows != [] {
      hide Keep, OwnItems, AllRows;
      assert rows[|rows| - 1] in rows && forall r <- rows[..|rows| - 1] :: r in rows;
      KeepAllOwn(p, rows[..|rows| - 1], all, projection, owner);
      KeepOwn(KeepAll(p, rows[..|rows| - 1], projection), rows[|rows| - 1], projection, owner, all);
    }
  }

  lemma {:induction false} BringAllOwn(p: Page, rows: seq<Row>, all: seq<Row>, projection: Projection, owner: Owner)
    requires OwnItems(p, owner) && AllRows(p, all)
    requires (forall r <- rows :: r in all) && forall r <- all :: owner(r.id) == r.key
    ensures var q := BringAll(p, rows, projection); OwnItems(q, owner) && AllRows(q, all)
  {
    if rows != [] {
      hide Bring, OwnItems, AllRows;
      assert rows[|rows| - 1] in rows && forall r <- rows[..|rows| - 1] :: r in rows;
      BringAllOwn(p, rows[..|rows| - 1], all, projection, owner);
      BringOwn(BringAll(p, rows[..|rows| - 1], projection), rows[|rows| - 1], projection, owner, all);
    }
  }

  // ---------------------------------------------------------------------------------------------
  // A page at rest

  /** The session has one row under its target, standing where it is moved to, or none and no list to go to. */
  ghost predicate SessionRests(q: Page, rows: seq<Row>, key: string, t: Target) {
    if key in q.chosen then
      && (exists r <- rows :: r.key == key && r.id == q.chosen[key] && Under(q, r, t) && Stands(q, r, t))
      && (forall r <- rows :: r.key == key && r.id != q.chosen[key] ==> r.id !in q.parent)
    else
      !Moves(q, t) && forall r <- rows :: r.key == key ==> !Under(q, r, t)
  }

  /** What a projection leaves. */
  ghost predicate AtRest(q: Page, rows: seq<Row>, projection: Projection, owner: Owner) {
    && Consistent(q) && OwnItems(q, owner) && AllRows(q, rows) && DistinctIds(rows)
    && (forall r <- rows :: owner(r.id) == r.key)
    && (forall r <- rows :: TargetOf(projection, r.key).Some? ==>
          SessionRests(q, rows, r.key, TargetOf(projection, r.key).value))
    && (forall r <- rows :: TargetOf(projection, r.key).Some? ==>
          var t := TargetOf(projection, r.key).value; Moves(q, t) ==> Tidy(q.lists[t.home.value]))
  }

  /** The home lists are tidy. */
  ghost predicate HomesTidy(p: Page, rows: seq<Row>, projection: Projection) {
    forall r <- rows :: TargetOf(projection, r.key).Some? ==>
      var t := TargetOf(projection, r.key).value; Moves(p, t) ==> Tidy(p.lists[t.home.value])
  }

  lemma ProjectedSessionRests(p: Page, rows: seq<Row>, owner: Owner, projection: Projection, row: Row)
    requires Scene(p, rows, owner, projection) && row in rows && TargetOf(projection, row.key).Some?
    ensures SessionRests(Projected(p, rows, projection), rows, row.key, TargetOf(projection, row.key).value)
  {
    hide KeepAll, BringAll, OwnChoices, Stands, ChosenStands;
    var key := row.key;
    var t := TargetOf(projection, key).value;
    var p0 := p.(chosen := map[]);
    assert rows[..|rows|] == rows;
    var c := KeptRun(p0, rows, |rows|, key, owner, projection);
    var p1 := KeepAll(p0, rows, projection);
    KeptThenBrought(p0, p1, rows, c, key, t);
    var d := BroughtRun(p1, rows, |rows|, c, key, owner, projection);
    ProjectedChosenStand(p, rows, owner, projection);
    RestFromBrought(p1, BringAll(p1, rows, projection), rows, d, key, t, projection, row);
  }

  lemma ProjectedChosenStand(p: Page, rows: seq<Row>, owner: Owner, projection: Projection)
    requires Scene(p, rows, owner, projection)
    ensures forall r <- rows :: ChosenStands(Projected(p, rows, projection), r, projection)
  {
    hide KeepAll, BringAll, OwnChoices, ChosenStands;
    SceneRows(p, rows, owner, projection);
    var p0 := p.(chosen := map[]);
    KeepAllStands(p0, rows, rows, projection, owner);
    BringAllStands(KeepAll(p0, rows, projection), rows, rows, projection, owner);
  }

  lemma SceneRows(p: Page, rows: seq<Row>, owner: Owner, projection: Projection)
    requires Scene(p, rows, owner, projection)
    ensures DistinctIds(rows) && forall r <- rows :: owner(r.id) == r.key
  {}

  lemma RestFromBrought(p1: Page, q: Page, rows: seq<Row>, d: int, key: string, t: Target, projection: Projection,
      row: Row)
    requires Brought(p1, q, rows, |rows|, d, key, t) && TargetOf(projection, key) == Some(t)
    requires forall r <- rows :: ChosenStands(q, r, projection)
    requires row in rows && row.key == key
    ensures SessionRests(q, rows, key, t)
  {
    hide Stands;
    if key in q.chosen {
      assert rows[d] in rows && ChosenStands(q, rows[d], projection);
      forall r <- rows | r.key == key && r.id != q.chosen[key]
        ensures r.id !in q.parent
      {
        var j :| 0 <= j < |rows| && rows[j] == r;
      }
    } else {
      var i :| 0 <= i < |rows| && rows[i] == row;
      forall r <- rows | r.key == key
        ensures !Under(q, r, t)
      {
        var j :| 0 <= j < |rows| && rows[j] == r;
      }
    }
  }

  lemma ProjectedIsAtRest(p: Page, rows: seq<Row>, owner: Owner, projection: Projection)
    requires Scene(p, rows, owner, projection) && Consistent(p) && OwnItems(p, owner) && AllRows(p, rows)
    requires HomesTidy(p, rows, projection)
    ensures AtRest(Projected(p, rows, projection), rows, projection, owner)
  {
    hide Projected, OwnItems, AllRows, Consistent, SessionRests, Tidy;
    var q := Projected(p, rows, projection);
    SceneRows(p, rows, owner, projection);
    ProjectedIsConsistent(p, rows, projection);
    ProjectedOwn(p, rows, owner, projection);
    ProjectedIsInOrder(p, rows, projection);
    forall r <- rows | TargetOf(projection, r.key).Some?
      ensures var t := TargetOf(projection, r.key).value;
              SessionRests(q, rows, r.key, t) && (Moves(q, t) ==> Tidy(q.lists[t.home.value]))
    {
      var t := TargetOf(projection, r.key).value;
      ProjectedSessionRests(p, rows, owner, projection, r);
      if Moves(q, t) {
        assert ListInOrder(p.lists[t.home.value], q.lists[t.home.value]);
      }
    }
  }

  lemma ProjectedOwn(p: Page, rows: seq<Row>, owner: Owner, projection: Projection)
    requires Scene(p, rows, owner, projection) && OwnItems(p, owner) && AllRows(p, rows)
    ensures var q := Projected(p, rows, projection); OwnItems(q, owner) && AllRows(q, rows)
  {
    hide KeepAll, BringAll, OwnItems, AllRows;
    SceneRows(p, rows, owner, projection);
    var p0 := p.(chosen := map[]);
    SameOwn(p, p0, owner, rows);
    KeepAllOwn(p0, rows, rows, projection, owner);
    BringAllOwn(KeepAll(p0, rows, projection), rows, rows, projection, owner);
  }

  // ---------------------------------------------------------------------------------------------
  // Projecting a page at rest

  /** The same lists and parents, and of the choices only those that stand. */
  ghost predicate Idle(q: Page, p: Page) {
    && p.lists == q.lists && p.parent == q.parent
    && forall key <- p.chosen :: key in q.chosen && p.chosen[key] == q.chosen[key]
  }

  /** In its list the row ties with no other. */
  lemma NoTieAtRest(q: Page, rows: seq<Row>, row: Row, projection: Projection, owner: Owner)
    requires AtRest(q, rows, projection, owner) && row in rows && TargetOf(projection, row.key).Some?
    requires row.key in q.chosen && q.chosen[row.key] == row.id && Moves(q, TargetOf(projection, row.key).value)
    ensures var t := TargetOf(projection, row.key).value;
            NoTie(q.lists[t.home.value], Dated(row, t))
  {
    hide Threads, RowsWith, RowIds, Greater, Stands, Tidy, Under;
    var t := TargetOf(projection, row.key).value;
    var x := Dated(row, t);
    forall y <- Threads(q.lists[t.home.value]) | y.id != x.id
      ensures Before(x, y) || Before(y, x)
    {
      SameKeySameRow(q, rows, row, projection, owner, t.home.value, y);
      GreaterIsTotal(x.key, y.key);
    }
  }

  /** A list shows no other row of a session that has its chosen one. */
  lemma SameKeySameRow(q: Page, rows: seq<Row>, row: Row, projection: Projection, owner: Owner, l: ListId, y: Row)
    requires AtRest(q, rows, projection, owner) && row in rows && TargetOf(projection, row.key).Some?
    requires row.key in q.chosen && q.chosen[row.key] == row.id && l in q.lists && y in Threads(q.lists[l])
    ensures y.key == row.key ==> y.id == row.id
  {
    hide Threads, RowIds, Stands, Tidy, Under, Moves, Consistent;
    assert SessionRests(q, rows, row.key, TargetOf(projection, row.key).value);
    ThreadIsAttached(q, l, y);
    var r :| r in rows && r.id == y.id;
    assert r.key == owner(y.id) == y.key;
  }

  lemma ThreadIsAttached(q: Page, l: ListId, y: Row)
    requires Consistent(q) && l in q.lists && y in Threads(q.lists[l])
    ensures y.id in q.parent && q.parent[y.id] == l
  {
    hide RowIds;
    ThreadHasId(q.lists[l], y);
  }

  lemma {:induction false} ThreadHasId(items: seq<Item>, y: Row)
    requires y in Threads(items)
    ensures y.id in RowIds(items)
  {
    if items[0].Thread? && items[0].row == y {
    } else {
      ThreadHasId(items[1..], y);
    }
  }

  lemma {:induction false} WithoutAbsent(items: seq<Item>, id: nat)
    requires id !in RowIds(items)
    ensures Without(items, {id}) == items
  {
    if items != [] {
      WithoutAbsent(items[1..], id);
    }
  }

  lemma DetachIsIdle(q: Page, id: nat)
    requires Consistent(q) && id !in q.parent
    ensures Detach(q, id).lists == q.lists && Detach(q, id).parent == q.parent
  {
    hide RowIds, Without;
    forall l <- q.lists
      ensures Without(q.lists[l], {id}) == q.lists[l]
    {
      WithoutAbsent(q.lists[l], id);
    }
  }

  lemma InsertedWithout(items: seq<Item>, row: Row)
    ensures InsertedByTime(Without(items, {row.id}), row) == InsertedByTime(items, row)
  {
    hide Without, FirstLater, Front;
    WithoutTwice(items, {row.id}, {row.id});
    assert {row.id} + {row.id} == {row.id};
  }

  /** Moving a row that stands where it is moved to changes no list and no parent. */
  lemma MoveIsIdle(q: Page, row: Row, t: Target)
    requires Consistent(q) && Stands(q, row, t)
    requires Moves(q, t) ==> Tidy(q.lists[t.home.value]) && NoTie(q.lists[t.home.value], Dated(row, t))
    ensures Move(q, row, t).lists == q.lists && Move(q, row, t).parent == q.parent
  {
    hide RowIds, Without, Threads, RowsWith, InsertedByTime, Tidy, NoTie;
    if Moves(q, t) {
      var home := t.home.value;
      InsertedWithout(q.lists[home], Dated(row, t));
      InsertionIsIdle(q.lists[home], Dated(row, t));
      var r := Move(q, row, t);
      forall l <- q.lists
        ensures r.lists[l] == q.lists[l]
      {
        if l != home {
          WithoutAbsent(q.lists[l], row.id);
        }
      }
    }
  }

  lemma KeepIsIdle(q: Page, p: Page, rows: seq<Row>, row: Row, projection: Projection, owner: Owner)
    requires AtRest(q, rows, projection, owner) && Idle(q, p) && row in rows
    ensures var r := Keep(p, row, projection);
            && Idle(q, r) && (forall key <- p.chosen :: key in r.chosen)
            && (TargetOf(projection, row.key).Some? && Under(q, row, TargetOf(projection, row.key).value)
                ==> row.key in r.chosen)
  {
    hide Move, Detach, Tidy, OwnItems, AllRows, NoTie;
    if TargetOf(projection, row.key).Some? && Under(p, row, TargetOf(projection, row.key).value) {
      var t := TargetOf(projection, row.key).value;
      assert SessionRests(q, rows, row.key, t);
      assert row.key in q.chosen && q.chosen[row.key] == row.id;
      var a := Choose(p, row);
      ChosenRowStands(q, rows, row, t);
      IdleStands(q, a, row, t);
      if Moves(q, t) {
        NoTieAtRest(q, rows, row, projection, owner);
      }
      IdleConsistent(q, a);
      MoveIsIdle(a, row, t);
      MovePlaces(a, row, t);
    }
  }

  lemma ChosenRowStands(q: Page, rows: seq<Row>, row: Row, t: Target)
    requires SessionRests(q, rows, row.key, t) && row in rows && DistinctIds(rows)
    requires row.key in q.chosen && q.chosen[row.key] == row.id
    ensures Stands(q, row, t)
  {
    hide Stands, Under;
    var r :| r in rows && r.key == row.key && r.id == q.chosen[row.key] && Under(q, r, t) && Stands(q, r, t);
    SameIdSameRow(rows, r, row);
  }

  lemma IdleStands(q: Page, a: Page, row: Row, t: Target)
    requires Stands(q, row, t) && a.lists == q.lists && a.parent == q.parent
    ensures Stands(a, row, t)
  {
    hide RowsWith, Threads;
  }

  lemma IdleConsistent(q: Page, a: Page)
    requires Consistent(q) && a.lists == q.lists && a.parent == q.parent
    ensures Consistent(a)
  {
    hide RowIds;
  }

  lemma BringIsIdle(q: Page, p: Page, rows: seq<Row>, row: Row, projection: Projection, owner: Owner)
    requires AtRest(q, rows, projection, owner) && Idle(q, p) && row in rows
    requires TargetOf(projection, row.key).Some? && row.key in q.chosen ==> row.key in p.chosen
    ensures Idle(q, Bring(p, row, projection))
    ensures forall key <- p.chosen :: key in Bring(p, row, projection).chosen
  {
    hide Move, Detach, Tidy, OwnItems, AllRows, Stands;
    if TargetOf(projection, row.key).Some? && !Under(p, row, TargetOf(projection, row.key).value) {
      var t := TargetOf(projection, row.key).value;
      assert SessionRests(q, rows, row.key, t);
      if row.key in p.chosen {
        NotUnderIsDetached(q, rows, row, t);
        IdleConsistent(q, p);
        DetachIsIdle(p, row.id);
        DetachPlaces(p, row.id);
      }
    }
  }

  lemma NotUnderIsDetached(q: Page, rows: seq<Row>, row: Row, t: Target)
    requires SessionRests(q, rows, row.key, t) && row in rows && DistinctIds(rows)
    requires row.key in q.chosen && !Under(q, row, t)
    ensures row.id !in q.parent
  {
    hide Stands;
    var r :| r in rows && r.key == row.key && r.id == q.chosen[row.key] && Under(q, r, t) && Stands(q, r, t);
    SameIdSameRow(rows, r, row);
  }

  /** Whether a row of `again` is chosen for the session. */
  ghost predicate Finds(q: Page, again: seq<Row>, key: string, projection: Projection) {
    exists r <- again :: r.key == key && TargetOf(projection, key).Some? && Under(q, r, TargetOf(projection, key).value)
  }

  lemma {:induction false} KeepAllIsIdle(q: Page, rows: seq<Row>, again: seq<Row>, projection: Projection, owner: Owner)
    requires AtRest(q, rows, projection, owner) && forall r <- again :: r in rows
    ensures var r := KeepAll(q.(chosen := map[]), again, projection);
            Idle(q, r) && forall key :: Finds(q, again, key, projection) ==> key in r.chosen
  {
    hide AtRest;
    if again != [] {
      hide Keep, Under;
      var front, row := again[..|again| - 1], again[|again| - 1];
      assert row in again && forall r <- front :: r in again;
      KeepAllIsIdle(q, rows, front, projection, owner);
      var p := KeepAll(q.(chosen := map[]), front, projection);
      KeepIsIdle(q, p, rows, row, projection, owner);
      forall key | Finds(q, again, key, projection)
        ensures key in Keep(p, row, projection).chosen
      {
        FoundEarlier(q, again, key, projection);
      }
    }
  }

  lemma FoundEarlier(q: Page, again: seq<Row>, key: string, projection: Projection)
    requires again != [] && Finds(q, again, key, projection)
    ensures var row := again[|again| - 1];
            Finds(q, again[..|again| - 1], key, projection)
            || (row.key == key && TargetOf(projection, key).Some? && Under(q, row, TargetOf(projection, key).value))
  {
    hide Under;
    var r :| r in again && r.key == key && TargetOf(projection, key).Some?
        && Under(q, r, TargetOf(projection, key).value);
    assert again == again[..|again| - 1] + [again[|again| - 1]];
  }

  lemma {:induction false} BringAllIsIdle(q: Page, p: Page, rows: seq<Row>, again: seq<Row>, projection: Projection,
      owner: Owner)
    requires AtRest(q, rows, projection, owner) && Idle(q, p) && forall r <- again :: r in rows
    requires forall r <- rows :: TargetOf(projection, r.key).Some? && r.key in q.chosen ==> r.key in p.chosen
    ensures var r := BringAll(p, again, projection);
            Idle(q, r) && forall key <- p.chosen :: key in r.chosen
  {
    hide AtRest;
    if again != [] {
      hide Bring;
      var front, row := again[..|again| - 1], again[|again| - 1];
      assert row in again && forall r <- front :: r in again;
      BringAllIsIdle(q, p, rows, front, projection, owner);
      BringIsIdle(q, BringAll(p, front, projection), rows, row, projection, owner);
    }
  }

  lemma RestFinds(q: Page, rows: seq<Row>, again: seq<Row>, projection: Projection, owner: Owner, row: Row)
    requires AtRest(q, rows, projection, owner) && row in rows
    requires forall r <- rows :: r.id in q.parent ==> r in again
    requires TargetOf(projection, row.key).Some? && row.key in q.chosen
    ensures Finds(q, again, row.key, projection)
  {
    hide Stands, Tidy, OwnItems, AllRows, Consistent;
    var t := TargetOf(projection, row.key).value;
    assert SessionRests(q, rows, row.key, t);
    var r :| r in rows && r.key == row.key && r.id == q.chosen[row.key] && Under(q, r, t) && Stands(q, r, t);
    assert r in again;
  }

  lemma RestIsIdle(q: Page, rows: seq<Row>, again: seq<Row>, projection: Projection, owner: Owner)
    requires AtRest(q, rows, projection, owner)
    requires (forall r <- again :: r in rows) && forall r <- rows :: r.id in q.parent ==> r in again
    ensures var r := Projected(q, again, projection); r.lists == q.lists && r.parent == q.parent
  {
    hide AtRest, KeepAll, BringAll, Finds;
    KeepAllIsIdle(q, rows, again, projection, owner);
    var p := KeepAll(q.(chosen := map[]), again, projection);
    forall r <- rows | TargetOf(projection, r.key).Some? && r.key in q.chosen
      ensures r.key in p.chosen
    {
      RestFinds(q, rows, again, projection, owner, r);
    }
    BringAllIsIdle(q, p, rows, again, projection, owner);
  }

  /** The same rows, each with the time it had or the one a projection gives it. */
  ghost predicate SameButDated(seen: seq<Row>, rows: seq<Row>, projection: Projection) {
    |seen| == |rows| && forall i :: 0 <= i < |rows| ==> MayBe(seen[i], rows[i], projection)
  }

  ghost predicate MayBe(seen: Row, row: Row, projection: Projection) {
    var target := TargetOf(projection, row.key);
    seen == row || (target.Some? && seen == Dated(row, target.value))
  }

  lemma DatedRowIsTreatedAlike(p: Page, seen: Row, row: Row, projection: Projection)
    requires MayBe(seen, row, projection)
    ensures Keep(p, seen, projection) == Keep(p, row, projection)
    ensures Bring(p, seen, projection) == Bring(p, row, projection)
  {
    hide Detach, InsertedByTime;
  }

  lemma {:induction false} DatedRowsAreKeptAlike(p: Page, seen: seq<Row>, rows: seq<Row>, projection: Projection)
    requires SameButDated(seen, rows, projection)
    ensures KeepAll(p, seen, projection) == KeepAll(p, rows, projection)
  {
    if rows != [] {
      hide Keep, MayBe;
      var n := |rows| - 1;
      DatedRowsAreKeptAlike(p, seen[..n], rows[..n], projection);
      DatedRowIsTreatedAlike(KeepAll(p, rows[..n], projection), seen[n], rows[n], projection);
    }
  }

  lemma {:induction false} DatedRowsAreBroughtAlike(p: Page, seen: seq<Row>, rows: seq<Row>, projection: Projection)
    requires SameButDated(seen, rows, projection)
    ensures BringAll(p, seen, projection) == BringAll(p, rows, projection)
  {
    if rows != [] {
      hide Bring, MayBe;
      var n := |rows| - 1;
      DatedRowsAreBroughtAlike(p, seen[..n], rows[..n], projection);
      DatedRowIsTreatedAlike(BringAll(p, rows[..n], projection), seen[n], rows[n], projection);
    }
  }

  /**
   Projecting twice is projecting once: when the lists of the moved sessions are in order, carrying the projection out
   again changes no list and no parent, for any selection and order of the rows that holds all those still on the page,
   with the times they had or were given.
   */
  lemma ProjectionComesToRest(p: Page, rows: seq<Row>, owner: Owner, projection: Projection, again: seq<Row>,
      seen: seq<Row>)
    requires Scene(p, rows, owner, projection) && Consistent(p) && OwnItems(p, owner) && AllRows(p, rows)
    requires HomesTidy(p, rows, projection)
    requires forall r <- again :: r in rows
    requires forall r <- rows :: r.id in Projected(p, rows, projection).parent ==> r in again
    requires SameButDated(seen, again, projection)
    ensures var once := Projected(p, rows, projection);
            var twice := Projected(once, seen, projection);
            twice.lists == once.lists && twice.parent == once.parent
  {
    hide KeepAll, BringAll, Scene, Consistent, OwnItems, AllRows, HomesTidy, AtRest, SameButDated;
    var once := Projected(p, rows, projection);
    ProjectedIsAtRest(p, rows, owner, projection);
    DatedRowsAreKeptAlike(once.(chosen := map[]), seen, again, projection);
    DatedRowsAreBroughtAlike(KeepAll(once.(chosen := map[]), again, projection), seen, again, projection);
    RestIsIdle(once, rows, again, projection, owner);
  }
}
