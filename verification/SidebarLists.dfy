/**
 A sidebar list as the page holds it: conversation rows mixed with other children, changed in place
 by inserting one row at its time or by reordering all of them.

 A row is the same row as another if they have the same `id`, whatever sort time each carries.
 */
module SidebarLists {
  import opened Wrappers
  import opened SidebarOrder

  /** The children that are not one of these rows, in their order. */
  function Without(items: seq<Item>, ids: set<nat>): (r: seq<Item>)
    ensures forall x <- r :: x in items && !(x.Thread? && x.row.id in ids)
  {
    if items == [] then []
    else if items[0].Thread? && items[0].row.id in ids then Without(items[1..], ids)
    else [items[0]] + Without(items[1..], ids)
  }

  function Threads(items: seq<Item>): seq<Row> {
    if items == [] then []
    else if items[0].Thread? then [items[0].row] + Threads(items[1..])
    else Threads(items[1..])
  }

  function Plains(items: seq<Item>): seq<Item> {
    if items == [] then []
    else if items[0].Plain? then [items[0]] + Plains(items[1..])
    else Plains(items[1..])
  }

  function Wrap(rows: seq<Row>): (items: seq<Item>)
    ensures |items| == |rows| && forall i :: 0 <= i < |rows| ==> items[i] == Thread(rows[i])
  {
    seq(|rows|, i requires 0 <= i < |rows| => Thread(rows[i]))
  }

  /** The rows in front of the first other child. */
  function Front(items: seq<Item>): (r: seq<Item>)
    ensures r <= items && forall i <- r :: i.Thread?
    ensures |r| < |items| ==> items[|r|].Plain?
  {
    if items == [] || items[0].Plain? then [] else [items[0]] + Front(items[1..])
  }

  /** The list from the first child that is not a row. */
  function Back(items: seq<Item>): seq<Item> { items[|Front(items)|..] }

  /** The place of the first row that has to follow `row`, or the length. */
  function FirstLater(items: seq<Item>, row: Row): (k: nat)
    ensures k <= |items|
    ensures forall i :: 0 <= i < k ==> !(items[i].Thread? && Before(row, items[i].row))
    ensures k < |items| ==> items[k].Thread? && Before(row, items[k].row)
  {
    if items == [] || (items[0].Thread? && Before(row, items[0].row)) then 0 else 1 + FirstLater(items[1..], row)
  }

  function InsertAt(items: seq<Item>, k: nat, x: Item): seq<Item>
    requires k <= |items|
  {
    items[..k] + [x] + items[k..]
  }

  /** The list with `row` in front of the first row it precedes, else in front of the first other child, else last. */
  function InsertedByTime(items: seq<Item>, row: Row): seq<Item> {
    var rest := Without(items, {row.id});
    var later := FirstLater(rest, row);
    InsertAt(rest, if later < |rest| then later else |Front(rest)|, Thread(row))
  }

  function IndexOf(items: seq<Item>, x: Item): (k: nat)
    ensures k <= |items| && x !in items[..k]
    ensures k < |items| ==> items[k] == x
  {
    if items == [] || items[0] == x then 0 else 1 + IndexOf(items[1..], x)
  }

  /** `insertBefore`: the row leaves its place and stands in front of `ref`, or last. */
  function InsertedBefore(items: seq<Item>, row: Row, ref: Option<Item>): seq<Item> {
    var rest := Without(items, {row.id});
    InsertAt(rest, if ref.Some? then IndexOf(rest, ref.value) else |rest|, Thread(row))
  }

  function FirstOther(items: seq<Item>): Option<Item> {
    if Back(items) == [] then None else Some(Back(items)[0])
  }

  function Ids(rows: seq<Row>): set<nat> { set r <- rows :: r.id }

  ghost predicate DistinctIds(rows: seq<Row>) {
    forall i, j :: 0 <= i < j < |rows| ==> rows[i].id != rows[j].id
  }

  /** All given rows, sorted, in front of the first other child; everything else stays in its order. */
  function Assembly(loc: Locale, items: seq<Item>, rows: seq<Row>): seq<Item> {
    var others := Without(items, Ids(rows));
    Front(others) + Wrap(SortRows(loc, rows)) + Back(others)
  }

  /** Fewer than two rows are left where they stand. */
  function Reordered(loc: Locale, items: seq<Item>, rows: seq<Row>): seq<Item> {
    if |rows| < 2 then items else Assembly(loc, items, rows)
  }

  class ThreadList {
    var items: seq<Item>

    constructor (items: seq<Item>)
      ensures this.items == items
    {
      this.items := items;
    }

    method InsertBefore(row: Row, ref: Option<Item>)
      modifies this
      ensures items == InsertedBefore(old(items), row, ref)
    {
      var rest := Without(items, {row.id});
      var k := if ref.Some? then IndexOf(rest, ref.value) else |rest|;
      items := rest[..k] + [Thread(row)] + rest[k..];
    }

    method InsertRowItemByTime(row: Row)
      modifies this
      ensures items == InsertedByTime(old(items), row)
    {
      hide Without, Greater, Front, FirstLater, NoneLater, FirstPlainIs;
      var existing := Without(items, {row.id});
      var firstNonThread: Option<nat> := None;
      var i: nat := 0;
      LoopStarts(existing, row);
      while i < |existing|
        invariant 0 <= i <= |existing|
        invariant NoneLater(existing, row, i) && FirstPlainIs(existing, i, firstNonThread)
      {
        var child := existing[i];
        LoopGoesOn(existing, row, i, firstNonThread);
        if child.Plain? {
          if firstNonThread == None {
            firstNonThread := Some(i);
          }
          i := i + 1;
          continue;
        }
        var childPinned := child.row.pinned;
        if childPinned && !row.pinned {
          i := i + 1;
          continue;
        }
        if !childPinned && row.pinned {
          FirstLaterFound(existing, row, i);
          items := existing[..i] + [Thread(row)] + existing[i..];
          return;
        }
        if row.sortMs > child.row.sortMs || (row.sortMs == child.row.sortMs && Greater(row.key, child.row.key)) {
          FirstLaterFound(existing, row, i);
          items := existing[..i] + [Thread(row)] + existing[i..];
          return;
        }
        i := i + 1;
      }
      LoopEnds(existing, row, firstNonThread);
      if firstNonThread.Some? {
        var at := firstNonThread.value;
        items := existing[..at] + [Thread(row)] + existing[at..];
        return;
      }
      items := existing + [Thread(row)];
    }

    method ReorderChatsRows(loc: Locale, rows: seq<Row>)
      requires DistinctIds(rows) && IsLocale(loc)
      modifies this
      ensures items == Reordered(loc, old(items), rows)
    {
      if |rows| < 2 {
        return;
      }
      hide SortRows, IsLocale, Without, Front, InsertedBefore, Progress, Ids;
      var firstNonThread := FirstOther(items);
      var ordered := SortRows(loc, rows);
      SortedIdsDistinct(loc, rows);
      ghost var others := Without(items, Ids(rows));
      ProgressStart(ordered, items, others);
      for i := 0 to |ordered|
        invariant Progress(ordered, items, i, others)
        invariant firstNonThread == FirstOther(items)
      {
        ProgressStep(ordered, items, i, others);
        InsertBefore(ordered[i], firstNonThread);
      }
      ProgressEnd(ordered, items, others);
    }
  }

  // ---------------------------------------------------------------------------------------------
  // What the loops rely on

  /** None of the first `i` children is a row that has to follow `row`. */
  ghost predicate NoneLater(items: seq<Item>, row: Row, i: nat)
    requires i <= |items|
  {
    forall j :: 0 <= j < i ==> !(items[j].Thread? && Before(row, items[j].row))
  }

  /** `first` is the first child among the first `i` that is not a row, if there is one. */
  ghost predicate FirstPlainIs(items: seq<Item>, i: nat, first: Option<nat>) {
    if |Front(items)| < i then first == Some(|Front(items)|) else first == None
  }

  lemma LoopStarts(items: seq<Item>, row: Row)
    ensures NoneLater(items, row, 0) && FirstPlainIs(items, 0, None)
  {}

  lemma LoopGoesOn(items: seq<Item>, row: Row, i: nat, first: Option<nat>)
    requires i < |items| && NoneLater(items, row, i) && FirstPlainIs(items, i, first)
    ensures !(items[i].Thread? && Before(row, items[i].row)) ==> NoneLater(items, row, i + 1)
    ensures FirstPlainIs(items, i + 1, if items[i].Plain? && first == None then Some(i) else first)
  {
    hide Before, Front;
    var front := Front(items);
    assert i < |front| ==> items[i] == front[i] && front[i] in front;
  }

  lemma FirstLaterFound(items: seq<Item>, row: Row, k: nat)
    requires k < |items| && NoneLater(items, row, k) && items[k].Thread? && Before(row, items[k].row)
    ensures FirstLater(items, row) == k
  {
    hide Before;
    FirstLaterIs(items, row, k);
  }

  lemma LoopEnds(items: seq<Item>, row: Row, first: Option<nat>)
    requires NoneLater(items, row, |items|) && FirstPlainIs(items, |items|, first)
    ensures FirstLater(items, row) == |items| && |Front(items)| == first.GetOr(|items|)
  {
    hide Before, Front;
    FirstLaterIs(items, row, |items|);
  }

  lemma FirstLaterIs(items: seq<Item>, row: Row, k: nat)
    requires k <= |items|
    requires forall j :: 0 <= j < k ==> !(items[j].Thread? && Before(row, items[j].row))
    requires k < |items| ==> items[k].Thread? && Before(row, items[k].row)
    ensures FirstLater(items, row) == k
  {
    hide Before, FirstLater;
    var later := FirstLater(items, row);
  }

  lemma IdsSplit(rows: seq<Row>, i: nat)
    requires i < |rows| && DistinctIds(rows)
    ensures Ids(rows[i..]) == {rows[i].id} + Ids(rows[i + 1..]) && rows[i].id !in Ids(rows[i + 1..])
  {
    assert rows[i..] == [rows[i]] + rows[i + 1..];
  }

  lemma IndexOfIs(items: seq<Item>, k: nat)
    requires k < |items| && items[k] !in items[..k]
    ensures IndexOf(items, items[k]) == k
  {
    assert forall i :: 0 <= i < k ==> items[i] == items[..k][i];
    var i := IndexOf(items, items[k]);
  }

  lemma WithoutNothing(items: seq<Item>)
    ensures Without(items, {}) == items
  {}

  lemma {:induction false} WithoutTwice(items: seq<Item>, a: set<nat>, b: set<nat>)
    ensures Without(Without(items, a), b) == Without(items, a + b)
  {
    if items != [] {
      WithoutTwice(items[1..], a, b);
    }
  }

  lemma {:induction false} WithoutSplit(a: seq<Item>, b: seq<Item>, ids: set<nat>)
    ensures Without(a + b, ids) == Without(a, ids) + Without(b, ids)
  {
    if a == [] {
      assert a + b == b;
    } else {
      var i, rest := a[0], a[1..];
      assert (a + b)[0] == i && (a + b)[1..] == rest + b;
      var own := if i.Thread? && i.row.id in ids then [] else [i];
      assert Without(a, ids) == own + Without(rest, ids);
      assert Without(a + b, ids) == own + Without(rest + b, ids);
      hide Without;
      WithoutSplit(rest, b, ids);
      Associative(own, Without(rest, ids), Without(b, ids));
    }
  }

  lemma {:induction false} FrontOf(front: seq<Item>, back: seq<Item>)
    requires (forall i <- front :: i.Thread?) && (back == [] || back[0].Plain?)
    ensures Front(front + back) == front && Back(front + back) == back
  {
    if front == [] {
      assert front + back == back;
    } else {
      assert (front + back)[0] == front[0] && (front + back)[1..] == front[1..] + back;
      assert front[0] in front;
      FrontOf(front[1..], back);
    }
  }

  /** Removing rows does not change which child is the first that is not a row. */
  lemma WithoutKeepsBack(items: seq<Item>, ids: set<nat>)
    ensures Front(Without(items, ids)) == Without(Front(items), ids)
    ensures Back(Without(items, ids)) == Without(Back(items), ids)
    ensures FirstOther(Without(items, ids)) == FirstOther(items)
  {
    assert items == Front(items) + Back(items);
    WithoutSplit(Front(items), Back(items), ids);
    FrontOf(Without(Front(items), ids), Without(Back(items), ids));
  }

  lemma InsertedBeforeFirstOther(items: seq<Item>, row: Row)
    ensures var rest := Without(items, {row.id});
            InsertedBefore(items, row, FirstOther(items)) == Front(rest) + [Thread(row)] + Back(rest)
  {
    hide Without, Front, IndexOf;
    var rest := Without(items, {row.id});
    WithoutKeepsBack(items, {row.id});
    if FirstOther(rest).Some? {
      assert rest[..|Front(rest)|] == Front(rest);
      IndexOfIs(rest, |Front(rest)|);
    }
  }

  /** One step of the reorder, seen without the rows still to come. */
  lemma ReorderStep(items: seq<Item>, x: Row, undone: set<nat>, front: seq<Item>, back: seq<Item>)
    requires x.id !in undone && Without(items, {x.id} + undone) == front + back
    requires (forall i <- front :: i.Thread?) && (back == [] || back[0].Plain?)
    ensures var next := InsertedBefore(items, x, FirstOther(items));
            && Without(next, undone) == front + [Thread(x)] + back
            && FirstOther(next) == FirstOther(items)
  {
    hide Without, Front, InsertedBefore;
    var rest := Without(items, {x.id});
    InsertedBeforeFirstOther(items, x);
    WithoutTwice(items, {x.id}, undone);
    WithoutKeepsBack(items, {x.id});
    WithoutKeepsBack(rest, undone);
    FrontOf(front, back);
    WithoutSplit(Front(rest) + [Thread(x)], Back(rest), undone);
    WithoutSplit(Front(rest), [Thread(x)], undone);
    WithoutOther(x, undone);
    FrontOf(Front(rest) + [Thread(x)], Back(rest));
  }

  /** The first `i` rows stand together in front of the first other child; the rest are still anywhere. */
  ghost predicate Progress(ordered: seq<Row>, items: seq<Item>, i: nat, others: seq<Item>)
    requires i <= |ordered|
  {
    Without(items, Ids(ordered[i..])) == Front(others) + Wrap(ordered[..i]) + Back(others)
  }

  lemma ProgressStart(ordered: seq<Row>, items: seq<Item>, others: seq<Item>)
    requires others == Without(items, Ids(ordered))
    ensures Progress(ordered, items, 0, others)
  {
    hide Without, Front;
    assert ordered[0..] == ordered && Wrap(ordered[..0]) == [];
    assert others == Front(others) + [] + Back(others);
  }

  lemma ProgressStep(ordered: seq<Row>, items: seq<Item>, i: nat, others: seq<Item>)
    requires i < |ordered| && DistinctIds(ordered) && Progress(ordered, items, i, others)
    ensures var next := InsertedBefore(items, ordered[i], FirstOther(items));
            Progress(ordered, next, i + 1, others) && FirstOther(next) == FirstOther(items)
  {
    hide Without, Front, InsertedBefore, DistinctIds;
    IdsSplit(ordered, i);
    assert Wrap(ordered[..i + 1]) == Wrap(ordered[..i]) + [Thread(ordered[i])];
    ReorderStep(items, ordered[i], Ids(ordered[i + 1..]), Front(others) + Wrap(ordered[..i]), Back(others));
  }

  lemma ProgressEnd(ordered: seq<Row>, items: seq<Item>, others: seq<Item>)
    requires Progress(ordered, items, |ordered|, others)
    ensures items == Front(others) + Wrap(ordered) + Back(others)
  {
    hide Front;
    assert ordered[|ordered|..] == [] && ordered[..|ordered|] == ordered;
    assert Ids(ordered[|ordered|..]) == {};
    WithoutNothing(items);
  }

  lemma WithoutOther(x: Row, ids: set<nat>)
    requires x.id !in ids
    ensures Without([Thread(x)], ids) == [Thread(x)]
  {}

  lemma InsertDistinct(rows: seq<Row>, k: nat, x: Row)
    requires k <= |rows| && DistinctIds(rows) && x.id !in Ids(rows)
    ensures var r := rows[..k] + [x] + rows[k..];
            DistinctIds(r) && Ids(r) == Ids(rows) + {x.id}
  {
    hide Ids, DistinctIds;
    IdsInserted(rows, k, x);
    NewId(rows, x);
    DistinctInserted(rows, k, x);
  }

  lemma NewId(rows: seq<Row>, x: Row)
    requires x.id !in Ids(rows)
    ensures forall i :: 0 <= i < |rows| ==> rows[i].id != x.id
  {
    assert forall i :: 0 <= i < |rows| ==> rows[i] in rows;
  }

  lemma IdsInserted(rows: seq<Row>, k: nat, x: Row)
    requires k <= |rows|
    ensures Ids(rows[..k] + [x] + rows[k..]) == Ids(rows) + {x.id}
  {
    hide Ids;
    IdsJoin(rows[..k] + [x], rows[k..]);
    IdsJoin(rows[..k], [x]);
    IdsJoin(rows[..k], rows[k..]);
    IdsOfOne(x);
    assert rows[..k] + rows[k..] == rows;
  }

  lemma IdsOfOne(x: Row)
    ensures Ids([x]) == {x.id}
  {
    assert x in [x];
  }

  lemma IdsJoin(a: seq<Row>, b: seq<Row>)
    ensures Ids(a + b) == Ids(a) + Ids(b)
  {
    assert forall r :: r in a + b <==> r in a || r in b;
  }

  lemma DistinctInserted(rows: seq<Row>, k: nat, x: Row)
    requires k <= |rows| && DistinctIds(rows) && forall i :: 0 <= i < |rows| ==> rows[i].id != x.id
    ensures DistinctIds(rows[..k] + [x] + rows[k..])
  {
    var r := rows[..k] + [x] + rows[k..];
    InsertedAt(rows, k, x);
    forall i, j | 0 <= i < j < |r|
      ensures r[i].id != r[j].id
    {
      var a, b := if i < k then i else i - 1, if j < k then j else j - 1;
      assert i != k ==> r[i] == rows[a];
      assert j != k ==> r[j] == rows[b];
    }
  }

  lemma {:induction false} SortedIdsDistinct(loc: Locale, rows: seq<Row>)
    requires DistinctIds(rows)
    ensures Ids(SortRows(loc, rows)) == Ids(rows) && DistinctIds(SortRows(loc, rows))
  {
    hide Place, Compare;
    if rows != [] {
      var front, x := rows[..|rows| - 1], rows[|rows| - 1];
      SortedIdsDistinct(loc, front);
      assert rows == front + [x];
      assert Ids(rows) == Ids(front) + {x.id};
      var sorted := SortRows(loc, front);
      InsertDistinct(sorted, Place(loc, sorted, x), x);
    }
  }

  // ---------------------------------------------------------------------------------------------
  // Main results

  /** Sorted rows first, then the other children. */
  ghost predicate Tidy(items: seq<Item>) {
    items == Wrap(Threads(items)) + Plains(items) && Sorted(Threads(items))
  }

  lemma {:induction false} ThreadsSplit(a: seq<Item>, b: seq<Item>)
    ensures Threads(a + b) == Threads(a) + Threads(b) && Plains(a + b) == Plains(a) + Plains(b)
  {
    if a == [] {
      assert a + b == b;
    } else {
      assert (a + b)[0] == a[0] && (a + b)[1..] == a[1..] + b;
      FirstThread(a);
      FirstThread(a + b);
      hide Threads, Plains;
      ThreadsSplit(a[1..], b);
      Associative(OwnRow(a[0]), Threads(a[1..]), Threads(b));
      Associative(OwnPlain(a[0]), Plains(a[1..]), Plains(b));
    }
  }

  function OwnRow(i: Item): seq<Row> { if i.Thread? then [i.row] else [] }

  function OwnPlain(i: Item): seq<Item> { if i.Plain? then [i] else [] }

  lemma FirstThread(items: seq<Item>)
    requires items != []
    ensures Threads(items) == OwnRow(items[0]) + Threads(items[1..])
    ensures Plains(items) == OwnPlain(items[0]) + Plains(items[1..])
  {}

  lemma Associative<T>(a: seq<T>, b: seq<T>, c: seq<T>)
    ensures a + b + c == a + (b + c)
  {}

  lemma {:induction false} OnlyThreads(rows: seq<Row>)
    ensures Threads(Wrap(rows)) == rows && Plains(Wrap(rows)) == []
  {
    if rows != [] {
      OnlyThreads(rows[1..]);
      assert Wrap(rows)[1..] == Wrap(rows[1..]);
    }
  }

  lemma {:induction false} OnlyPlains(items: seq<Item>)
    requires forall i <- items :: i.Plain?
    ensures Threads(items) == [] && Plains(items) == items
  {
    if items != [] {
      assert items[0] in items;
      OnlyPlains(items[1..]);
    }
  }

  lemma {:induction false} PlainsArePlain(items: seq<Item>)
    ensures forall i <- Plains(items) :: i.Plain?
  {
    if items != [] {
      PlainsArePlain(items[1..]);
    }
  }

  /** A list put together from rows and other children is what it looks like. */
  lemma Assembled(rows: seq<Row>, plains: seq<Item>)
    requires forall i <- plains :: i.Plain?
    ensures Threads(Wrap(rows) + plains) == rows && Plains(Wrap(rows) + plains) == plains
  {
    ThreadsSplit(Wrap(rows), plains);
    OnlyThreads(rows);
    OnlyPlains(plains);
  }

  /** Where a row goes in a tidy list: in front of the first row it precedes, or behind all rows. */
  lemma InsertPlace(items: seq<Item>, row: Row) returns (k: nat)
    requires Tidy(items)
    ensures k <= |Threads(items)|
    ensures var later := FirstLater(items, row);
            k == if later < |items| then later else |Front(items)|
    ensures var t := Threads(items);
            && (forall i :: 0 <= i < k ==> !Before(row, t[i]))
            && (k < |t| ==> Before(row, t[k]))
  {
    hide Before, Threads, Plains, FirstLater, Front, Sorted;
    var t, p := Threads(items), Plains(items);
    PlainsArePlain(items);
    FrontOf(Wrap(t), p);
    TidyChildren(items);
    k := FirstLater(items, row);
    if k == |items| {
      k := |t|;
    }
  }

  /** Where the rows and the other children of a tidy list stand. */
  lemma TidyChildren(items: seq<Item>)
    requires Tidy(items)
    ensures |items| == |Threads(items)| + |Plains(items)|
    ensures forall i :: 0 <= i < |Threads(items)| ==> items[i] == Thread(Threads(items)[i])
    ensures forall i :: |Threads(items)| <= i < |items| ==> items[i].Plain?
  {
    hide Threads, Plains, Sorted;
    var t, p := Threads(items), Plains(items);
    PlainsArePlain(items);
    forall i | |t| <= i < |items|
      ensures items[i].Plain?
    {
      assert items[i] == p[i - |t|] && p[i - |t|] in p;
    }
  }

  lemma InsertedRowsSorted(t: seq<Row>, k: nat, row: Row)
    requires Sorted(t) && k <= |t|
    requires forall i :: 0 <= i < k ==> !Before(row, t[i])
    requires k < |t| ==> Before(row, t[k])
    ensures Sorted(t[..k] + [row] + t[k..])
  {
    hide Before;
    forall i | k <= i < |t|
      ensures !Before(t[i], row)
    {
      BeforeIsAsymmetric(row, t[k]);
      if k < i {
        NotBeforeIsTransitive(row, t[k], t[i]);
      }
    }
  }

  /** Inserting a row into a tidy list keeps it tidy and adds nothing but the row. */
  lemma InsertKeepsTidy(items: seq<Item>, row: Row)
    requires Tidy(Without(items, {row.id}))
    ensures var rest := Without(items, {row.id});
            var result := InsertedByTime(items, row);
            && Tidy(result)
            && Plains(result) == Plains(rest)
            && multiset(result) == multiset(rest) + multiset{Thread(row)}
  {
    hide Before, Without, Threads, Plains, FirstLater, Front;
    var rest := Without(items, {row.id});
    var t, p := Threads(rest), Plains(rest);
    var k := InsertPlace(rest, row);
    InsertedRowsSorted(t, k, row);
    var rows := t[..k] + [row] + t[k..];
    InsertedAssembled(rest, row, k);
    PlainsArePlain(rest);
    Assembled(rows, p);
    InsertAddsOne(rest, k, Thread(row));
  }

  lemma InsertAddsOne(items: seq<Item>, k: nat, x: Item)
    requires k <= |items|
    ensures multiset(InsertAt(items, k, x)) == multiset(items) + multiset{x}
  {
    assert items == items[..k] + items[k..];
  }

  lemma InsertedAssembled(rest: seq<Item>, row: Row, k: nat)
    requires rest == Wrap(Threads(rest)) + Plains(rest) && k <= |Threads(rest)|
    ensures var t := Threads(rest);
            InsertAt(rest, k, Thread(row)) == Wrap(t[..k] + [row] + t[k..]) + Plains(rest)
  {}

  /**
   Reordering all rows of a list leaves them in comparator order and the other children as they were; from two
   rows on they also stand in front. The detector accepts the result exactly if no two tied rows disagree.
   */
  lemma ReorderSortsInPlace(loc: Locale, items: seq<Item>)
    requires IsLocale(loc)
    ensures var result, rows := Reordered(loc, items, Threads(items)), Threads(items);
            && Threads(result) == SortRows(loc, rows) && Plains(result) == Plains(items)
            && multiset(Threads(result)) == multiset(rows)
            && (|rows| >= 2 ==> result == Wrap(SortRows(loc, rows)) + Plains(items))
            && (|rows| >= 2 ==> (Tidy(result) <==> OrdersAgree(loc, rows)))
            && (Sorted(Threads(result)) <==> OrdersAgree(loc, rows))
  {
    hide OrdersAgree, IsLocale, SortRows, Sorted, Threads, Plains, Assembly;
    var rows := Threads(items);
    SortRowsSorts(loc, rows);
    ReorderSettlesIff(loc, rows);
    if |rows| < 2 {
      FewAreSorted(loc, rows);
    } else {
      AssemblySorts(loc, items);
    }
  }

  lemma AssemblySorts(loc: Locale, items: seq<Item>)
    ensures var result, sorted := Assembly(loc, items, Threads(items)), SortRows(loc, Threads(items));
            result == Wrap(sorted) + Plains(items) && Threads(result) == sorted && Plains(result) == Plains(items)
  {
    hide SortRows, Threads, Plains, Without, Front, Wrap;
    var rows := Threads(items);
    RemovingAllThreads(items, Ids(rows));
    PlainsArePlain(items);
    FrontOf([], Plains(items));
    assert [] + Plains(items) == Plains(items);
    assert [] + Wrap(SortRows(loc, rows)) == Wrap(SortRows(loc, rows));
    Assembled(SortRows(loc, rows), Plains(items));
  }

  lemma FewAreSorted(loc: Locale, rows: seq<Row>)
    requires |rows| < 2 && IsLocale(loc)
    ensures SortRows(loc, rows) == rows
  {
    SortedIsFixed(loc, rows);
  }

  lemma {:induction false} RemovingAllThreads(items: seq<Item>, ids: set<nat>)
    requires forall r <- Threads(items) :: r.id in ids
    ensures Without(items, ids) == Plains(items)
  {
    if items != [] {
      assert items[0].Thread? ==> items[0].row in Threads(items);
      RemovingAllThreads(items[1..], ids);
    }
  }

  /**
   Inserting one row by time and sorting the rows with that one added come to the same order exactly if no two
   tied rows disagree.
   */
  lemma InsertAgreesWithReorderIff(loc: Locale, items: seq<Item>, row: Row)
    requires IsLocale(loc) && Tidy(Without(items, {row.id}))
    ensures var rows := Threads(Without(items, {row.id})) + [row];
            Threads(InsertedByTime(items, row)) == SortRows(loc, rows) <==> OrdersAgree(loc, rows)
  {
    hide Before, Compare, IsLocale, Threads, Plains, Without, Front, FirstLater, SortRows, OrdersAgree, Sorted;
    var rest := Without(items, {row.id});
    var t := Threads(rest);
    var k := InsertPlace(rest, row);
    InsertedAssembled(rest, row, k);
    PlainsArePlain(rest);
    Assembled(t[..k] + [row] + t[k..], Plains(rest));
    InsertedRowsSorted(t, k, row);
    ReorderSettlesIff(loc, t + [row]);
    if OrdersAgree(loc, t + [row]) {
      SortOneMore(loc, t, row, k);
    }
  }

  /** Sorting sorted rows with one more behind them puts that one where insertion puts it. */
  lemma SortOneMore(loc: Locale, t: seq<Row>, row: Row, k: nat)
    requires IsLocale(loc) && Sorted(t) && OrdersAgree(loc, t + [row]) && k <= |t|
    requires forall i :: 0 <= i < k ==> !Before(row, t[i])
    requires k < |t| ==> Before(row, t[k])
    ensures SortRows(loc, t + [row]) == t[..k] + [row] + t[k..]
  {
    hide Before, Compare, IsLocale, Sorted, Place, Disagrees;
    var all := t + [row];
    assert all[..|all| - 1] == t;
    AgreeOneMore(loc, all);
    AgreeingIsCompareSorted(loc, t);
    SortedIsFixed(loc, t);
    forall i | 0 <= i < |t|
      ensures Compare(loc, row, t[i]) < 0 <==> Before(row, t[i])
    {
      assert t[i] in t;
      AgreeingBefore(loc, t[i], row);
    }
    PlaceIs(loc, t, row, k);
  }

  lemma PlaceIs(loc: Locale, t: seq<Row>, row: Row, k: nat)
    requires k <= |t| && forall i :: 0 <= i < k ==> Compare(loc, row, t[i]) >= 0
    requires k < |t| ==> Compare(loc, row, t[k]) < 0
    ensures Place(loc, t, row) == k
  {
    hide Place, Compare;
    var p := Place(loc, t, row);
  }

  // ---------------------------------------------------------------------------------------------
  // Removing rows

  lemma {:induction false} WithoutThreads(items: seq<Item>, ids: set<nat>)
    ensures Plains(Without(items, ids)) == Plains(items)
    ensures Threads(Without(items, ids)) == RowsWithout(Threads(items), ids)
  {
    if items != [] {
      WithoutThreads(items[1..], ids);
    }
  }

  function RowsWithout(rows: seq<Row>, ids: set<nat>): (r: seq<Row>)
    ensures forall x <- r :: x in rows
  {
    if rows == [] then []
    else if rows[0].id in ids then RowsWithout(rows[1..], ids)
    else [rows[0]] + RowsWithout(rows[1..], ids)
  }

  lemma {:induction false} RowsWithoutSorted(rows: seq<Row>, ids: set<nat>)
    requires Sorted(rows)
    ensures Sorted(RowsWithout(rows, ids))
  {
    hide Before;
    if rows != [] {
      assert forall i :: 0 < i < |rows| ==> rows[1..][i - 1] == rows[i];
      RowsWithoutSorted(rows[1..], ids);
      var rest := RowsWithout(rows[1..], ids);
      forall i | 0 <= i < |rest|
        ensures !Before(rest[i], rows[0])
      {
        assert rest[i] in rest && rest[i] in rows[1..];
        var j :| 0 <= j < |rows[1..]| && rows[1..][j] == rest[i];
        assert !Before(rows[j + 1], rows[0]);
      }
    }
  }

  lemma WrapOneMore(rows: seq<Row>)
    requires rows != []
    ensures Wrap(rows) == [Thread(rows[0])] + Wrap(rows[1..])
  {}

  lemma WithoutOne(x: Row, ids: set<nat>)
    ensures Without([Thread(x)], ids) == if x.id in ids then [] else [Thread(x)]
  {
    assert Without([Thread(x)][1..], ids) == [];
  }

  lemma {:induction false} WithoutWrapped(rows: seq<Row>, ids: set<nat>)
    ensures Without(Wrap(rows), ids) == Wrap(RowsWithout(rows, ids))
  {
    if rows != [] {
      hide Wrap, Without;
      WithoutWrapped(rows[1..], ids);
      WrapOneMore(rows);
      WithoutSplit([Thread(rows[0])], Wrap(rows[1..]), ids);
      WithoutOne(rows[0], ids);
      if rows[0].id in ids {
        assert [] + Wrap(RowsWithout(rows[1..], ids)) == Wrap(RowsWithout(rows[1..], ids));
      } else {
        WrapOneMore([rows[0]] + RowsWithout(rows[1..], ids));
      }
    }
  }

  lemma {:induction false} WithoutPlains(items: seq<Item>, ids: set<nat>)
    requires forall i <- items :: i.Plain?
    ensures Without(items, ids) == items
  {
    if items != [] {
      assert items[0] in items;
      WithoutPlains(items[1..], ids);
    }
  }

  /** A tidy list stays tidy when rows leave it. */
  lemma WithoutKeepsTidy(items: seq<Item>, ids: set<nat>)
    requires Tidy(items)
    ensures Tidy(Without(items, ids))
  {
    hide Without, Threads, Plains, Sorted, RowsWithout;
    var t, p := Threads(items), Plains(items);
    PlainsArePlain(items);
    WithoutThreads(items, ids);
    RowsWithoutSorted(t, ids);
    WithoutSplit(Wrap(t), p, ids);
    WithoutWrapped(t, ids);
    WithoutPlains(p, ids);
  }
}
