/**
 The two passes that bring conversation rows under the project they were moved to.

 The page may hold several rows of one session, under the target or elsewhere, in any order. The page
 is modelled as its lists and, as in the document, a parent for every row that is still attached.
 */
module SidebarProjection {
  import opened Wrappers
  import opened SidebarOrder
  import opened SidebarLists

  type ListId = nat

  /** Where a session belongs: the lists that count as being there, and the list a row is moved to, if it exists. */
  datatype Target = Target(under: set<ListId>, home: Option<ListId>, sortMs: int)

  type Projection = map<string, Target>

  datatype Page = Page(
    lists: map<ListId, seq<Item>>,
    parent: map<nat, ListId>,
    marked: set<nat>,
    chosen: map<string, nat>)

  function TargetOf(projection: Projection, key: string): Option<Target> {
    if key != "" && key in projection then Some(projection[key]) else None
  }

  predicate Under(p: Page, row: Row, t: Target) {
    row.id in p.parent && p.parent[row.id] in t.under
  }

  function Detach(p: Page, id: nat): Page {
    p.(lists := map l | l in p.lists :: Without(p.lists[l], {id}), parent := p.parent - {id})
  }

  function Choose(p: Page, row: Row): Page { p.(chosen := p.chosen[row.key := row.id]) }

  /** The row with the time it is placed by: the target's if there is one. */
  function Dated(row: Row, t: Target): Row { if t.sortMs > 0 then row.(sortMs := t.sortMs) else row }

  /** Moves a row into the target's list at its time and marks it; nothing happens when there is no such list. */
  function Move(p: Page, row: Row, t: Target): Page {
    if t.home.None? || t.home.value !in p.lists then p
    else
      var home := t.home.value;
      var q := Detach(p, row.id);
      q.(lists := q.lists[home := InsertedByTime(q.lists[home], Dated(row, t))],
         parent := q.parent[row.id := home],
         marked := q.marked + {row.id})
  }

  predicate Moves(p: Page, t: Target) { t.home.Some? && t.home.value in p.lists }

  /** First pass: of the rows already under their target one is kept and moved to its place. */
  function Keep(p: Page, row: Row, projection: Projection): Page {
    var target := TargetOf(projection, row.key);
    if target.None? || !Under(p, row, target.value) then p
    else if row.key in p.chosen && p.chosen[row.key] != row.id then
      var existing := p.chosen[row.key];
      if existing in p.marked && row.id !in p.marked
      then Move(Choose(Detach(p, existing), row), row, target.value)
      else Detach(p, row.id)
    else Move(Choose(p, row), row, target.value)
  }

  /** Second pass: rows elsewhere are moved in if their session has none there yet, else removed. */
  function Bring(p: Page, row: Row, projection: Projection): Page {
    var target := TargetOf(projection, row.key);
    if target.None? then p.(marked := p.marked - {row.id})
    else if Under(p, row, target.value) then p
    else if row.key in p.chosen then Detach(p, row.id)
    else if Moves(p, target.value) then Choose(Move(p, row, target.value), row)
    else p
  }

  function KeepAll(p: Page, rows: seq<Row>, projection: Projection): Page {
    if rows == [] then p
    else Keep(KeepAll(p, rows[..|rows| - 1], projection), rows[|rows| - 1], projection)
  }

  function BringAll(p: Page, rows: seq<Row>, projection: Projection): Page {
    if rows == [] then p
    else Bring(BringAll(p, rows[..|rows| - 1], projection), rows[|rows| - 1], projection)
  }

  function Projected(p: Page, rows: seq<Row>, projection: Projection): Page {
    BringAll(KeepAll(p.(chosen := map[]), rows, projection), rows, projection)
  }

  class Sidebar {
    var lists: map<ListId, seq<Item>>
    var parent: map<nat, ListId>
    var marked: set<nat>

    function Value(chosen: map<string, nat>): Page reads this { Page(lists, parent, marked, chosen) }

    method Remove(id: nat)
      modifies this
      ensures forall chosen :: Value(chosen) == Detach(old(Value(chosen)), id)
    {
      lists := map l | l in lists :: Without(lists[l], {id});
      parent := parent - {id};
    }

    method MoveRow(row: Row, t: Target) returns (moved: bool)
      modifies this
      ensures forall chosen :: Value(chosen) == Move(old(Value(chosen)), row, t)
      ensures moved <==> old(Moves(Value(map[]), t))
      ensures !moved ==> forall chosen :: Value(chosen) == old(Value(chosen))
    {
      if t.home.None? || t.home.value !in lists {
        return false;
      }
      var home := t.home.value;
      var dated := Dated(row, t);
      Remove(row.id);
      assert Value(map[]) == Detach(old(Value(map[])), row.id);
      lists := lists[home := InsertedByTime(lists[home], dated)];
      parent := parent[row.id := home];
      marked := marked + {row.id};
      moved := true;
    }

    method KeepRowsUnderTarget(rows: seq<Row>, projection: Projection) returns (targetRowsById: map<string, nat>)
      modifies this
      ensures Value(targetRowsById) == KeepAll(old(Value(map[])), rows, projection)
    {
      hide Move, Detach;
      targetRowsById := map[];
      for i := 0 to |rows|
        invariant Value(targetRowsById) == KeepAll(old(Value(map[])), rows[..i], projection)
      {
        assert rows[..i + 1][..i] == rows[..i];
        var row := rows[i];
        var target := TargetOf(projection, row.key);
        if target.Some? && row.id in parent && parent[row.id] in target.value.under {
          if row.key in targetRowsById && targetRowsById[row.key] != row.id {
            var existing := targetRowsById[row.key];
            var existingIsProjection := existing in marked;
            var currentIsProjection := row.id in marked;
            var rowToRemove := if existingIsProjection && !currentIsProjection then existing else row.id;
            Remove(rowToRemove);
            if rowToRemove == row.id {
              continue;
            }
          }
          targetRowsById := targetRowsById[row.key := row.id];
          var moved := MoveRow(row, target.value);
        }
      }
      assert rows[..|rows|] == rows;
    }

    method BringRowsUnderTarget(rows: seq<Row>, projection: Projection, chosen: map<string, nat>)
        returns (targetRowsById: map<string, nat>)
      modifies this
      ensures Value(targetRowsById) == BringAll(old(Value(chosen)), rows, projection)
    {
      hide Move, Detach;
      targetRowsById := chosen;
      for i := 0 to |rows|
        invariant Value(targetRowsById) == BringAll(old(Value(chosen)), rows[..i], projection)
      {
        assert rows[..i + 1][..i] == rows[..i];
        var row := rows[i];
        var target := TargetOf(projection, row.key);
        if target.None? {
          marked := marked - {row.id};
          continue;
        }
        if row.id in parent && parent[row.id] in target.value.under {
          continue;
        }
        if row.key in targetRowsById {
          Remove(row.id);
          continue;
        }
        var moved := MoveRow(row, target.value);
        if moved {
          targetRowsById := targetRowsById[row.key := row.id];
        }
      }
      assert rows[..|rows|] == rows;
    }

    method ApplyProjectMoveProjection(rows: seq<Row>, projection: Projection)
      modifies this
      ensures exists chosen :: Value(chosen) == Projected(old(Value(map[])), rows, projection)
    {
      hide KeepAll, BringAll;
      var kept := KeepRowsUnderTarget(rows, projection);
      var targetRowsById := BringRowsUnderTarget(rows, projection, kept);
      assert Value(targetRowsById) == Projected(old(Value(map[])), rows, projection);
    }
  }

  // ---------------------------------------------------------------------------------------------
  // The lists and the parents tell the same story throughout

  function RowIds(items: seq<Item>): set<nat> {
    if items == [] then {}
    else (if items[0].Thread? then {items[0].row.id} else {}) + RowIds(items[1..])
  }

  /** A row hangs in a list exactly if that list is its parent. */
  ghost predicate Consistent(p: Page) {
    && (forall id <- p.parent :: p.parent[id] in p.lists)
    && forall l, id :: l in p.lists ==> (id in RowIds(p.lists[l]) <==> id in p.parent && p.parent[id] == l)
  }

  lemma {:induction false} RowIdsWithout(items: seq<Item>, ids: set<nat>)
    ensures RowIds(Without(items, ids)) == RowIds(items) - ids
  {
    if items != [] {
      RowIdsWithout(items[1..], ids);
    }
  }

  lemma {:induction false} RowIdsSplit(a: seq<Item>, b: seq<Item>)
    ensures RowIds(a + b) == RowIds(a) + RowIds(b)
  {
    if a == [] {
      assert a + b == b;
    } else {
      assert (a + b)[0] == a[0] && (a + b)[1..] == a[1..] + b;
      RowIdsSplit(a[1..], b);
    }
  }

  lemma RowIdsInserted(items: seq<Item>, row: Row)
    ensures RowIds(InsertedByTime(items, row)) == RowIds(items) + {row.id}
  {
    hide RowIds, Without, FirstLater, Front;
    var rest := Without(items, {row.id});
    var later := FirstLater(rest, row);
    var k := if later < |rest| then later else |Front(rest)|;
    RowIdsWithout(items, {row.id});
    RowIdsInsertAt(rest, k, row);
  }

  lemma RowIdsInsertAt(items: seq<Item>, k: nat, row: Row)
    requires k <= |items|
    ensures RowIds(InsertAt(items, k, Thread(row))) == RowIds(items) + {row.id}
  {
    assert items == items[..k] + items[k..];
    RowIdsSplit(items[..k], items[k..]);
    RowIdsSplit(items[..k], [Thread(row)]);
    RowIdsSplit(items[..k] + [Thread(row)], items[k..]);
    assert RowIds([Thread(row)]) == {row.id};
  }

  lemma DetachConsistent(p: Page, id: nat)
    requires Consistent(p)
    ensures Consistent(Detach(p, id))
  {
    hide RowIds, Without;
    var q := Detach(p, id);
    forall l, other | l in q.lists
      ensures other in RowIds(q.lists[l]) <==> other in q.parent && q.parent[other] == l
    {
      RowIdsWithout(p.lists[l], {id});
    }
  }

  lemma MoveConsistent(p: Page, row: Row, t: Target)
    requires Consistent(p)
    ensures Consistent(Move(p, row, t))
  {
    hide RowIds, InsertedByTime, Without;
    if Moves(p, t) {
      DetachConsistent(p, row.id);
      var q := Detach(p, row.id);
      var dated := Dated(row, t);
      RowIdsInserted(q.lists[t.home.value], dated);
    }
  }

  lemma {:induction false} KeepAllConsistent(p: Page, rows: seq<Row>, projection: Projection)
    requires Consistent(p)
    ensures Consistent(KeepAll(p, rows, projection)) && KeepAll(p, rows, projection).lists.Keys == p.lists.Keys
  {
    hide Consistent, Move, Detach;
    if rows != [] {
      var row := rows[|rows| - 1];
      KeepAllConsistent(p, rows[..|rows| - 1], projection);
      var q := KeepAll(p, rows[..|rows| - 1], projection);
      KeepConsistent(q, row, projection);
    }
  }

  lemma KeepConsistent(p: Page, row: Row, projection: Projection)
    requires Consistent(p)
    ensures Consistent(Keep(p, row, projection)) && Keep(p, row, projection).lists.Keys == p.lists.Keys
  {
    hide Consistent, Move, Detach;
    if TargetOf(projection, row.key).Some? {
      var t := TargetOf(projection, row.key).value;
      TakeEffect(p, row, t);
      DetachPlaces(p, row.id);
      ChosenAside(p, row);
      MoveConsistent(Choose(p, row), row, t);
      DetachConsistent(p, row.id);
      if row.key in p.chosen {
        var q := Detach(p, p.chosen[row.key]);
        DetachPlaces(p, p.chosen[row.key]);
        DetachConsistent(p, p.chosen[row.key]);
        ChosenAside(q, row);
        TakeEffect(q, row, t);
        MoveConsistent(Choose(q, row), row, t);
      }
    }
  }

  lemma ChosenAside(p: Page, row: Row)
    requires Consistent(p)
    ensures Consistent(Choose(p, row))
  {
    hide RowIds;
  }

  lemma {:induction false} BringAllConsistent(p: Page, rows: seq<Row>, projection: Projection)
    requires Consistent(p)
    ensures Consistent(BringAll(p, rows, projection)) && BringAll(p, rows, projection).lists.Keys == p.lists.Keys
  {
    hide Consistent, Move, Detach;
    if rows != [] {
      var row := rows[|rows| - 1];
      BringAllConsistent(p, rows[..|rows| - 1], projection);
      BringConsistent(BringAll(p, rows[..|rows| - 1], projection), row, projection);
    }
  }

  lemma BringConsistent(p: Page, row: Row, projection: Projection)
    requires Consistent(p)
    ensures Consistent(Bring(p, row, projection)) && Bring(p, row, projection).lists.Keys == p.lists.Keys
  {
    hide Move, Detach, RowIds;
    if TargetOf(projection, row.key).Some? {
      var t := TargetOf(projection, row.key).value;
      BringEffect(p, row, projection);
      MoveConsistent(p, row, t);
      ChosenAside(Move(p, row, t), row);
      DetachConsistent(p, row.id);
    }
  }

  // ---------------------------------------------------------------------------------------------
  // One step changes nothing for other sessions

  ghost predicate SamePlace(p: Page, q: Page, id: nat) {
    (id in p.parent <==> id in q.parent) && (id in p.parent ==> p.parent[id] == q.parent[id])
  }

  lemma DetachPlaces(p: Page, id: nat)
    ensures var q := Detach(p, id);
            && id !in q.parent && q.chosen == p.chosen && q.lists.Keys == p.lists.Keys
            && forall other | other != id :: SamePlace(p, q, other)
  {
    hide Without;
  }

  lemma MovePlaces(p: Page, row: Row, t: Target)
    ensures var q := Move(p, row, t);
            && q.chosen == p.chosen && q.lists.Keys == p.lists.Keys
            && (if Moves(p, t) then row.id in q.parent && q.parent[row.id] == t.home.value else q == p)
            && forall other | other != row.id :: SamePlace(p, q, other)
  {
    hide Without, InsertedByTime;
  }

  /** Which session a row belongs to. */
  type Owner = nat -> string

  /** The row chosen for a session is one of its own. */
  ghost predicate OwnChoices(p: Page, owner: Owner) {
    forall key <- p.chosen :: owner(p.chosen[key]) == key
  }

  /** Nothing changed but rows and the choice of this session. */
  ghost predicate OnlySession(p: Page, q: Page, owner: Owner, key: string) {
    && q.lists.Keys == p.lists.Keys
    && (forall id | owner(id) != key :: SamePlace(p, q, id))
    && (forall other | other != key :: (other in p.chosen <==> other in q.chosen)
                                       && (other in p.chosen ==> p.chosen[other] == q.chosen[other]))
  }

  /** The row is now the one chosen for its session and hangs where a move puts it. */
  ghost predicate Taken(p: Page, q: Page, row: Row, t: Target) {
    && q.chosen == p.chosen[row.key := row.id]
    && (if Moves(p, t) then row.id in q.parent && q.parent[row.id] == t.home.value else SamePlace(p, q, row.id))
  }

  lemma TakeEffect(p: Page, row: Row, t: Target)
    ensures var q := Move(Choose(p, row), row, t);
            && Taken(p, q, row, t) && q.lists.Keys == p.lists.Keys
            && forall id | id != row.id :: SamePlace(p, q, id)
  {
    hide Move;
    var a := Choose(p, row);
    MovePlaces(a, row, t);
    forall id | id != row.id
      ensures SamePlace(p, Move(a, row, t), id)
    {
      assert SamePlace(a, Move(a, row, t), id);
    }
  }

  lemma KeepEffect(p: Page, row: Row, projection: Projection)
    requires TargetOf(projection, row.key).Some? && Under(p, row, TargetOf(projection, row.key).value)
    ensures var q := Keep(p, row, projection);
            var t := TargetOf(projection, row.key).value;
            && q.lists.Keys == p.lists.Keys
            && if row.key in p.chosen && p.chosen[row.key] != row.id then
                 var existing := p.chosen[row.key];
                 && (forall id | id != row.id && id != existing :: SamePlace(p, q, id))
                 && ((Taken(p, q, row, t) && existing !in q.parent)
                     || (q.chosen == p.chosen && row.id !in q.parent && SamePlace(p, q, existing)))
               else Taken(p, q, row, t) && forall id | id != row.id :: SamePlace(p, q, id)
  {
    hide Move, Detach;
    var t := TargetOf(projection, row.key).value;
    var q := Keep(p, row, projection);
    if row.key in p.chosen && p.chosen[row.key] != row.id {
      var existing := p.chosen[row.key];
      var without := Detach(p, existing);
      DetachPlaces(p, existing);
      DetachPlaces(p, row.id);
      TakeEffect(without, row, t);
      assert SamePlace(p, without, row.id);
      if existing in p.marked && row.id !in p.marked {
        forall id | id != row.id && id != existing
          ensures SamePlace(p, q, id)
        {
          assert SamePlace(p, without, id) && SamePlace(without, q, id);
        }
        assert SamePlace(without, q, existing);
      }
    } else {
      TakeEffect(p, row, t);
    }
  }

  lemma KeepIsLocal(p: Page, row: Row, projection: Projection, owner: Owner)
    requires OwnChoices(p, owner) && owner(row.id) == row.key
    ensures var q := Keep(p, row, projection);
            OwnChoices(q, owner) && OnlySession(p, q, owner, row.key)
    ensures TargetOf(projection, row.key).None? ==> Keep(p, row, projection) == p
  {
    if TargetOf(projection, row.key).Some? && Under(p, row, TargetOf(projection, row.key).value) {
      KeepEffect(p, row, projection);
      LocalKeep(p, Keep(p, row, projection), row, projection, owner);
    }
  }

  lemma LocalKeep(p: Page, q: Page, row: Row, projection: Projection, owner: Owner)
    requires OwnChoices(p, owner) && owner(row.id) == row.key && q.lists.Keys == p.lists.Keys
    requires forall id | id != row.id && !(row.key in p.chosen && id == p.chosen[row.key]) :: SamePlace(p, q, id)
    requires q.chosen == p.chosen || q.chosen == p.chosen[row.key := row.id]
    ensures OwnChoices(q, owner) && OnlySession(p, q, owner, row.key)
  {}

  lemma BringEffect(p: Page, row: Row, projection: Projection)
    requires TargetOf(projection, row.key).Some?
    ensures var q := Bring(p, row, projection);
            var t := TargetOf(projection, row.key).value;
            && q.lists.Keys == p.lists.Keys
            && (forall id | id != row.id :: SamePlace(p, q, id))
            && if Under(p, row, t) then q == p
               else if row.key in p.chosen then q.chosen == p.chosen && row.id !in q.parent
               else if Moves(p, t) then Taken(p, q, row, t)
               else q == p
  {
    hide Move, Detach;
    var t := TargetOf(projection, row.key).value;
    DetachPlaces(p, row.id);
    MovePlaces(p, row, t);
    var moved := Move(p, row, t);
    forall id | id != row.id
      ensures SamePlace(p, Choose(moved, row), id)
    {
      assert SamePlace(p, moved, id);
    }
  }

  lemma BringIsLocal(p: Page, row: Row, projection: Projection, owner: Owner)
    requires OwnChoices(p, owner) && owner(row.id) == row.key
    ensures var q := Bring(p, row, projection);
            OwnChoices(q, owner) && OnlySession(p, q, owner, row.key)
    ensures TargetOf(projection, row.key).None? ==>
              Bring(p, row, projection).chosen == p.chosen && Bring(p, row, projection).parent == p.parent
  {
    hide Move, Detach;
    if TargetOf(projection, row.key).Some? {
      BringEffect(p, row, projection);
      LocalKeep(p, Bring(p, row, projection), row, projection, owner);
    }
  }

  // ---------------------------------------------------------------------------------------------
  // First pass, for one session

  /** The rows of a run are all different and attached, and the list a target names counts as being there. */
  ghost predicate Scene(p: Page, rows: seq<Row>, owner: Owner, projection: Projection) {
    && DistinctIds(rows)
    && (forall j :: 0 <= j < |rows| ==> rows[j].id in p.parent && owner(rows[j].id) == rows[j].key)
    && (forall key <- projection :: projection[key].home.Some? ==> projection[key].home.value in projection[key].under)
  }

  /** Row `c` is the one chosen for the session: attached under its target, in its list if there is one. */
  ghost predicate Settled(p: Page, rows: seq<Row>, c: int, key: string, t: Target) {
    && 0 <= c < |rows| && rows[c].key == key
    && key in p.chosen && p.chosen[key] == rows[c].id
    && Under(p, rows[c], t)
    && (Moves(p, t) ==> p.parent[rows[c].id] == t.home.value)
  }

  ghost predicate Kept(p0: Page, p: Page, rows: seq<Row>, i: nat, c: int, key: string, t: Target) {
    && (key in p.chosen ==> c < i && Settled(p, rows, c, key, t) && Under(p0, rows[c], t))
    && forall j | 0 <= j < |rows| && rows[j].key == key ::
      if j >= i || !Under(p0, rows[j], t) then SamePlace(p0, p, rows[j].id)
      else key in p.chosen && (rows[j].id == p.chosen[key] || rows[j].id !in p.parent)
  }

  lemma KeptOwn(p0: Page, p: Page, rows: seq<Row>, i: nat, c: int, owner: Owner, projection: Projection)
      returns (d: int)
    requires i < |rows| && Scene(p0, rows, owner, projection) && OwnChoices(p, owner)
    requires TargetOf(projection, rows[i].key).Some?
    requires Kept(p0, p, rows, i, c, rows[i].key, TargetOf(projection, rows[i].key).value)
    ensures Kept(p0, Keep(p, rows[i], projection), rows, i + 1, d, rows[i].key, TargetOf(projection, rows[i].key).value)
  {
    hide Keep;
    var row := rows[i];
    var t := TargetOf(projection, row.key).value;
    var q := Keep(p, row, projection);
    assert SamePlace(p0, p, row.id);
    if Under(p, row, t) {
      KeepEffect(p, row, projection);
      d := if Taken(p, q, row, t) then i else c;
      HomeIsUnder(p0, rows, owner, projection, row.key);
      forall j | 0 <= j < |rows| && rows[j].key == row.key
        ensures if j >= i + 1 || !Under(p0, rows[j], t) then SamePlace(p0, q, rows[j].id)
                else row.key in q.chosen && (rows[j].id == q.chosen[row.key] || rows[j].id !in q.parent)
      {
        if j != i {
          assert rows[j].id != row.id;
          assert row.key in p.chosen && rows[j].id == p.chosen[row.key] ==> j == c;
          if !(row.key in p.chosen && rows[j].id == p.chosen[row.key]) {
            assert SamePlace(p, q, rows[j].id);
          }
        }
      }
    } else {
      NotUnderKeeps(p, row, projection);
      d := c;
    }
  }

  lemma NotUnderKeeps(p: Page, row: Row, projection: Projection)
    requires TargetOf(projection, row.key).Some? && !Under(p, row, TargetOf(projection, row.key).value)
    ensures Keep(p, row, projection) == p
  {}

  lemma HomeIsUnder(p: Page, rows: seq<Row>, owner: Owner, projection: Projection, key: string)
    requires Scene(p, rows, owner, projection) && TargetOf(projection, key).Some?
    ensures var t := TargetOf(projection, key).value; t.home.Some? ==> t.home.value in t.under
  {}

  lemma KeptOther(p0: Page, p: Page, q: Page, rows: seq<Row>, i: nat, c: int, key: string, t: Target, owner: Owner)
    requires i < |rows| && rows[i].key != key && Kept(p0, p, rows, i, c, key, t)
    requires forall j :: 0 <= j < |rows| ==> owner(rows[j].id) == rows[j].key
    requires OnlySession(p, q, owner, rows[i].key)
    ensures Kept(p0, q, rows, i + 1, c, key, t)
  {
    assert forall j | 0 <= j < |rows| && rows[j].key == key :: SamePlace(p, q, rows[j].id);
  }

  lemma {:induction false} KeptRun(p0: Page, rows: seq<Row>, n: nat, key: string, owner: Owner, projection: Projection)
      returns (c: int)
    requires n <= |rows| && Scene(p0, rows, owner, projection) && p0.chosen == map[]
    requires TargetOf(projection, key).Some?
    ensures var p := KeepAll(p0, rows[..n], projection);
            OwnChoices(p, owner) && p.lists.Keys == p0.lists.Keys
                && Kept(p0, p, rows, n, c, key, TargetOf(projection, key).value)
    decreases n
  {
    hide Keep, Kept, OwnChoices, Scene;
    c := -1;
    if n == 0 {
      KeptStart(p0, rows, key, TargetOf(projection, key).value, owner);
    } else {
      c := KeptRun(p0, rows, n - 1, key, owner, projection);
      var p := KeepAll(p0, rows[..n - 1], projection);
      assert rows[..n][..n - 1] == rows[..n - 1];
      SceneOwner(p0, rows, owner, projection);
      KeepIsLocal(p, rows[n - 1], projection, owner);
      if rows[n - 1].key == key {
        c := KeptOwn(p0, p, rows, n - 1, c, owner, projection);
      } else {
        KeptOther(p0, p, Keep(p, rows[n - 1], projection), rows, n - 1, c, key, TargetOf(projection, key).value, owner);
      }
    }
  }

  lemma SceneOwner(p: Page, rows: seq<Row>, owner: Owner, projection: Projection)
    requires Scene(p, rows, owner, projection)
    ensures forall j :: 0 <= j < |rows| ==> owner(rows[j].id) == rows[j].key
  {}

  lemma KeptStart(p0: Page, rows: seq<Row>, key: string, t: Target, owner: Owner)
    requires p0.chosen == map[]
    ensures Kept(p0, p0, rows, 0, -1, key, t) && OwnChoices(p0, owner)
  {}

  // ---------------------------------------------------------------------------------------------
  // Second pass, for one session

  ghost predicate Brought(p1: Page, p: Page, rows: seq<Row>, i: nat, c: int, key: string, t: Target) {
    && (key in p.chosen ==> Settled(p, rows, c, key, t))
    && forall j | 0 <= j < |rows| && rows[j].key == key ::
      if j < i && key in p.chosen then rows[j].id == p.chosen[key] || rows[j].id !in p.parent
      else
        && SamePlace(p1, p, rows[j].id)
        && (j < i ==> !Moves(p, t))
        && (Under(p, rows[j], t) ==> key in p.chosen && rows[j].id == p.chosen[key])
  }

  lemma BroughtOwn(p1: Page, p: Page, rows: seq<Row>, i: nat, c: int, owner: Owner, projection: Projection)
      returns (d: int)
    requires i < |rows| && DistinctIds(rows) && OwnChoices(p, owner)
    requires TargetOf(projection, rows[i].key).Some?
    requires var t := TargetOf(projection, rows[i].key).value;
             && Brought(p1, p, rows, i, c, rows[i].key, t)
             && (t.home.Some? ==> t.home.value in t.under)
    ensures Brought(p1, Bring(p, rows[i], projection), rows, i + 1, d, rows[i].key,
        TargetOf(projection, rows[i].key).value)
  {
    hide Bring;
    var row := rows[i];
    var t := TargetOf(projection, row.key).value;
    var q := Bring(p, row, projection);
    BringEffect(p, row, projection);
    d := if !Under(p, row, t) && row.key !in p.chosen then i else c;
    assert forall j | 0 <= j < |rows| && j != i :: rows[j].id != row.id && SamePlace(p, q, rows[j].id);
  }

  lemma BroughtOther(p1: Page, p: Page, q: Page, rows: seq<Row>, i: nat, c: int, key: string, t: Target, owner: Owner)
    requires i < |rows| && rows[i].key != key && Brought(p1, p, rows, i, c, key, t)
    requires forall j :: 0 <= j < |rows| ==> owner(rows[j].id) == rows[j].key
    requires OnlySession(p, q, owner, rows[i].key)
    ensures Brought(p1, q, rows, i + 1, c, key, t)
  {
    assert forall j | 0 <= j < |rows| && rows[j].key == key :: SamePlace(p, q, rows[j].id);
  }

  lemma {:induction false} BroughtRun(p1: Page, rows: seq<Row>, n: nat, c1: int, key: string, owner: Owner,
      projection: Projection) returns (c: int)
    requires n <= |rows| && DistinctIds(rows) && OwnChoices(p1, owner)
    requires forall j :: 0 <= j < |rows| ==> owner(rows[j].id) == rows[j].key
    requires TargetOf(projection, key).Some?
    requires var t := TargetOf(projection, key).value;
             Brought(p1, p1, rows, 0, c1, key, t) && (t.home.Some? ==> t.home.value in t.under)
    ensures var p := BringAll(p1, rows[..n], projection);
            OwnChoices(p, owner) && p.lists.Keys == p1.lists.Keys
                && Brought(p1, p, rows, n, c, key, TargetOf(projection, key).value)
    decreases n
  {
    hide Bring, Brought, OwnChoices, DistinctIds;
    c := c1;
    if n > 0 {
      c := BroughtRun(p1, rows, n - 1, c1, key, owner, projection);
      var p := BringAll(p1, rows[..n - 1], projection);
      assert rows[..n][..n - 1] == rows[..n - 1];
      BringIsLocal(p, rows[n - 1], projection, owner);
      if rows[n - 1].key == key {
        c := BroughtOwn(p1, p, rows, n - 1, c, owner, projection);
      } else {
        BroughtOther(p1, p, Bring(p, rows[n - 1], projection), rows, n - 1, c, key, TargetOf(projection, key).value,
            owner);
      }
    }
  }

  // ---------------------------------------------------------------------------------------------
  // Main results

  /** Exactly one of the session's rows is still attached, and it hangs in this list. */
  ghost predicate OneRowIn(p: Page, rows: seq<Row>, key: string, list: ListId) {
    exists c :: 0 <= c < |rows| && rows[c].key == key && rows[c].id in p.parent && p.parent[rows[c].id] == list
                && forall j | 0 <= j < |rows| && rows[j].key == key && j != c :: rows[j].id !in p.parent
  }

  ghost predicate SomeRow(p: Page, rows: seq<Row>, key: string) {
    exists c :: 0 <= c < |rows| && rows[c].key == key && rows[c].id in p.parent
  }

  /**
   Whatever duplicates there were and in whatever order the rows stood: a moved session whose list exists
   ends with exactly one row, in that list, and no session that had a row loses its last one.
   */
  lemma MovedSessionHasOneRow(p: Page, rows: seq<Row>, owner: Owner, projection: Projection, i: nat)
    requires i < |rows| && Scene(p, rows, owner, projection)
    requires TargetOf(projection, rows[i].key).Some?
    ensures var q := Projected(p, rows, projection);
            var t := TargetOf(projection, rows[i].key).value;
            && SomeRow(q, rows, rows[i].key)
            && (Moves(p, t) ==> OneRowIn(q, rows, rows[i].key, t.home.value))
  {
    hide KeepAll, BringAll, OwnChoices;
    var key := rows[i].key;
    var t := TargetOf(projection, key).value;
    var p0 := p.(chosen := map[]);
    assert rows[..|rows|] == rows;
    var c := KeptRun(p0, rows, |rows|, key, owner, projection);
    var p1 := KeepAll(p0, rows, projection);
    KeptThenBrought(p0, p1, rows, c, key, t);
    var d := BroughtRun(p1, rows, |rows|, c, key, owner, projection);
    var q := BringAll(p1, rows, projection);
    if key in q.chosen {
      assert rows[d].id in q.parent;
    } else {
      assert rows[i].id in p0.parent && SamePlace(p1, q, rows[i].id) && SamePlace(p0, p1, rows[i].id);
    }
  }

  lemma KeptThenBrought(p0: Page, p1: Page, rows: seq<Row>, c: int, key: string, t: Target)
    requires Kept(p0, p1, rows, |rows|, c, key, t)
    ensures Brought(p1, p1, rows, 0, c, key, t)
  {}

  /** Rows of sessions that were not moved stay where they are. */
  lemma UnmovedSessionStays(p: Page, rows: seq<Row>, owner: Owner, projection: Projection, id: nat)
    requires forall j :: 0 <= j < |rows| ==> owner(rows[j].id) == rows[j].key
    requires owner(id) == "" || owner(id) !in projection
    ensures SamePlace(p, Projected(p, rows, projection), id)
  {
    var p0 := p.(chosen := map[]);
    KeepAllElsewhere(p0, rows, owner, projection, id);
    BringAllElsewhere(KeepAll(p0, rows, projection), rows, owner, projection, id);
  }

  lemma {:induction false} KeepAllElsewhere(p: Page, rows: seq<Row>, owner: Owner, projection: Projection, id: nat)
    requires forall j :: 0 <= j < |rows| ==> owner(rows[j].id) == rows[j].key
    requires OwnChoices(p, owner) && TargetOf(projection, owner(id)).None?
    ensures var q := KeepAll(p, rows, projection);
            OwnChoices(q, owner) && SamePlace(p, q, id)
  {
    hide Keep, OwnChoices;
    if rows != [] {
      KeepAllElsewhere(p, rows[..|rows| - 1], owner, projection, id);
      KeepIsLocal(KeepAll(p, rows[..|rows| - 1], projection), rows[|rows| - 1], projection, owner);
    }
  }

  lemma {:induction false} BringAllElsewhere(p: Page, rows: seq<Row>, owner: Owner, projection: Projection, id: nat)
    requires forall j :: 0 <= j < |rows| ==> owner(rows[j].id) == rows[j].key
    requires OwnChoices(p, owner) && TargetOf(projection, owner(id)).None?
    ensures var q := BringAll(p, rows, projection);
            OwnChoices(q, owner) && SamePlace(p, q, id)
  {
    hide Bring, OwnChoices;
    if rows != [] {
      BringAllElsewhere(p, rows[..|rows| - 1], owner, projection, id);
      BringIsLocal(BringAll(p, rows[..|rows| - 1], projection), rows[|rows| - 1], projection, owner);
    }
  }

  /** Lists and parents still tell the same story afterwards, and the lists are the same ones. */
  lemma ProjectedIsConsistent(p: Page, rows: seq<Row>, projection: Projection)
    requires Consistent(p)
    ensures Consistent(Projected(p, rows, projection)) && Projected(p, rows, projection).lists.Keys == p.lists.Keys
  {
    var p0 := p.(chosen := map[]);
    KeepAllConsistent(p0, rows, projection);
    BringAllConsistent(KeepAll(p0, rows, projection), rows, projection);
  }

  // ---------------------------------------------------------------------------------------------
  // Order in the lists

  /** The same lists with the same other children, and those that were tidy are tidy. */
  ghost predicate InOrder(p: Page, q: Page) {
    && q.lists.Keys == p.lists.Keys
    && forall l <- p.lists :: ListInOrder(p.lists[l], q.lists[l])
  }

  ghost predicate ListInOrder(before: seq<Item>, after: seq<Item>) {
    Plains(after) == Plains(before) && (Tidy(before) ==> Tidy(after))
  }

  lemma InOrderTwice(p: Page, q: Page, r: Page)
    requires InOrder(p, q) && InOrder(q, r)
    ensures InOrder(p, r)
  {
    hide Plains, Tidy;
    forall l <- p.lists
      ensures ListInOrder(p.lists[l], r.lists[l])
    {
      assert ListInOrder(p.lists[l], q.lists[l]) && ListInOrder(q.lists[l], r.lists[l]);
    }
  }

  lemma RemovedInOrder(items: seq<Item>, ids: set<nat>)
    ensures ListInOrder(items, Without(items, ids))
  {
    hide Without, Plains, Tidy;
    WithoutThreads(items, ids);
    if Tidy(items) {
      WithoutKeepsTidy(items, ids);
    }
  }

  lemma InsertedPlains(items: seq<Item>, row: Row)
    ensures Plains(InsertedByTime(items, row)) == Plains(items)
  {
    hide Without, Plains, FirstLater, Front;
    var rest := Without(items, {row.id});
    var later := FirstLater(rest, row);
    var k := if later < |rest| then later else |Front(rest)|;
    WithoutThreads(items, {row.id});
    assert rest == rest[..k] + rest[k..];
    ThreadsSplit(rest[..k], rest[k..]);
    ThreadsSplit(rest[..k], [Thread(row)]);
    ThreadsSplit(rest[..k] + [Thread(row)], rest[k..]);
    NoPlains(row);
    assert Plains(rest[..k]) + [] == Plains(rest[..k]);
  }

  lemma NoPlains(row: Row)
    ensures Plains([Thread(row)]) == []
  {
    assert [Thread(row)][1..] == [];
  }

  lemma InsertedInOrder(items: seq<Item>, row: Row)
    ensures ListInOrder(items, InsertedByTime(items, row))
  {
    hide Without, Plains, Tidy, InsertedByTime;
    InsertedPlains(items, row);
    if Tidy(items) {
      WithoutKeepsTidy(items, {row.id});
      InsertKeepsTidy(items, row);
    }
  }

  lemma DetachInOrder(p: Page, id: nat)
    ensures InOrder(p, Detach(p, id))
  {
    hide Without, ListInOrder;
    forall l <- p.lists
      ensures ListInOrder(p.lists[l], Detach(p, id).lists[l])
    {
      RemovedInOrder(p.lists[l], {id});
    }
  }

  lemma SameInOrder(p: Page, q: Page)
    requires q.lists == p.lists
    ensures InOrder(p, q)
  {
    hide Plains, Tidy;
  }

  lemma MoveInOrder(p: Page, row: Row, t: Target)
    ensures InOrder(p, Move(p, row, t))
  {
    hide Detach, InsertedByTime, Plains, Tidy;
    SameInOrder(p, p);
    if Moves(p, t) {
      var q := Detach(p, row.id);
      DetachInOrder(p, row.id);
      var dated := Dated(row, t);
      InsertedInOrder(q.lists[t.home.value], dated);
      InOrderTwice(p, q, Move(p, row, t));
    }
  }

  lemma KeepInOrder(p: Page, row: Row, projection: Projection)
    ensures InOrder(p, Keep(p, row, projection))
  {
    hide Detach, Move, InOrder;
    SameInOrder(p, p);
    if TargetOf(projection, row.key).Some? {
      var t := TargetOf(projection, row.key).value;
      DetachInOrder(p, row.id);
      SameInOrder(p, Choose(p, row));
      MoveInOrder(Choose(p, row), row, t);
      InOrderTwice(p, Choose(p, row), Move(Choose(p, row), row, t));
      if row.key in p.chosen {
        var q := Detach(p, p.chosen[row.key]);
        DetachInOrder(p, p.chosen[row.key]);
        SameInOrder(q, Choose(q, row));
        InOrderTwice(p, q, Choose(q, row));
        MoveInOrder(Choose(q, row), row, t);
        InOrderTwice(p, Choose(q, row), Move(Choose(q, row), row, t));
      }
    }
  }

  lemma BringInOrder(p: Page, row: Row, projection: Projection)
    ensures InOrder(p, Bring(p, row, projection))
  {
    hide Detach, Move, InOrder;
    SameInOrder(p, p);
    SameInOrder(p, p.(marked := p.marked - {row.id}));
    DetachInOrder(p, row.id);
    if TargetOf(projection, row.key).Some? {
      var t := TargetOf(projection, row.key).value;
      var q := Move(p, row, t);
      MoveInOrder(p, row, t);
      SameInOrder(q, Choose(q, row));
      InOrderTwice(p, q, Choose(q, row));
    }
  }

  lemma {:induction false} KeepAllInOrder(p: Page, rows: seq<Row>, projection: Projection)
    ensures InOrder(p, KeepAll(p, rows, projection))
  {
    hide Keep, InOrder;
    SameInOrder(p, p);
    if rows != [] {
      var q := KeepAll(p, rows[..|rows| - 1], projection);
      KeepAllInOrder(p, rows[..|rows| - 1], projection);
      KeepInOrder(q, rows[|rows| - 1], projection);
      InOrderTwice(p, q, KeepAll(p, rows, projection));
    }
  }

  lemma {:induction false} BringAllInOrder(p: Page, rows: seq<Row>, projection: Projection)
    ensures InOrder(p, BringAll(p, rows, projection))
  {
    hide Bring, InOrder;
    SameInOrder(p, p);
    if rows != [] {
      var q := BringAll(p, rows[..|rows| - 1], projection);
      BringAllInOrder(p, rows[..|rows| - 1], projection);
      BringInOrder(q, rows[|rows| - 1], projection);
      InOrderTwice(p, q, BringAll(p, rows, projection));
    }
  }

  /** The projection keeps every list that is in the sidebar's order in it, and every child that is not a row. */
  lemma ProjectedIsInOrder(p: Page, rows: seq<Row>, projection: Projection)
    ensures InOrder(p, Projected(p, rows, projection))
  {
    hide KeepAll, BringAll, InOrder;
    var p0 := p.(chosen := map[]);
    var kept := KeepAll(p0, rows, projection);
    SameInOrder(p, p0);
    KeepAllInOrder(p0, rows, projection);
    BringAllInOrder(kept, rows, projection);
    InOrderTwice(p, p0, kept);
    InOrderTwice(p, kept, BringAll(kept, rows, projection));
  }
}
