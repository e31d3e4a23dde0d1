/**
 The order of conversation rows in the sidebar: pinned first, then newest first, then by key.

 Three pieces of the renderer maintain it: a detector, a full reorder and the insertion of one row.
 A list is a sequence of items; `Plain` items are children that are not conversation rows.
 */
module SidebarOrder {
  import opened Wrappers

  datatype Row = Row(id: nat, key: string, pinned: bool, sortMs: int)

  datatype Item = Thread(row: Row) | Plain(id: nat)

  // ---------------------------------------------------------------------------------------------
  // The order

  /** The rank of a character by its UTF-16 code units: a pair of surrogates comes before U+E000 to U+FFFF. */
  function Rank(c: char): int {
    var n := c as int;
    if n < 0xE000 then n else if n > 0xFFFF then n - 0x1_0000 + 0xE000 else n + 0x10_0000
  }

  /** `a > b` on strings, code unit by code unit. */
  predicate Greater(a: string, b: string) {
    if a == "" then false
    else if b == "" then true
    else if a[0] != b[0] then Rank(a[0]) > Rank(b[0])
    else Greater(a[1..], b[1..])
  }

  lemma RankTells(a: char, b: char)
    ensures Rank(a) == Rank(b) <==> a == b
  {}

  /** Row `a` has to stand before row `b`. */
  predicate Before(a: Row, b: Row) {
    if a.pinned != b.pinned then a.pinned
    else a.sortMs > b.sortMs || (a.sortMs == b.sortMs && Greater(a.key, b.key))
  }

  ghost predicate Sorted(rows: seq<Row>) {
    forall i, j :: 0 <= i < j < |rows| ==> !Before(rows[j], rows[i])
  }

  lemma {:induction false} GreaterIsTotal(a: string, b: string)
    ensures Greater(a, b) || Greater(b, a) || a == b
    ensures !(Greater(a, b) && Greater(b, a)) && !Greater(a, a)
    decreases |a|
  {
    hide Rank;
    if a != "" {
      if b != "" {
        RankTells(a[0], b[0]);
        if a[0] == b[0] {
          GreaterIsTotal(a[1..], b[1..]);
          assert a[1..] == b[1..] ==> a == b;
        }
      }
      GreaterIsTotal(a[1..], a[1..]);
    }
  }

  lemma {:induction false} GreaterIsTransitive(a: string, b: string, c: string)
    requires Greater(a, b) && Greater(b, c)
    ensures Greater(a, c)
    decreases |a|
  {
    hide Rank;
    if b != "" && c != "" {
      RankTells(a[0], b[0]);
      RankTells(b[0], c[0]);
    }
    if c != "" && a[0] == b[0] == c[0] {
      GreaterIsTransitive(a[1..], b[1..], c[1..]);
    }
  }

  /** The UTF-16 code units of a character: two for one beyond the first plane. */
  function UnitsOf(c: char): seq<int> {
    var n := c as int;
    if n < 0x1_0000 then [n] else [0xD800 + (n - 0x1_0000) / 0x400, 0xDC00 + (n - 0x1_0000) % 0x400]
  }

  function Units(s: string): seq<int> { if s == "" then [] else UnitsOf(s[0]) + Units(s[1..]) }

  /** At the first place where they differ the first sequence has the greater unit, or the second has ended. */
  predicate GreaterUnits(a: seq<int>, b: seq<int>) {
    a != [] && (b == [] || a[0] > b[0] || (a[0] == b[0] && GreaterUnits(a[1..], b[1..])))
  }

  lemma CommonUnits(x: seq<int>, a: seq<int>, b: seq<int>)
    requires |x| <= 2
    ensures GreaterUnits(x + a, x + b) <==> GreaterUnits(a, b)
  {
    if x == [] {
      assert x + a == a && x + b == b;
    } else {
      assert (x + a)[1..] == x[1..] + a && (x + b)[1..] == x[1..] + b;
      CommonUnits(x[1..], a, b);
    }
  }

  lemma UnitsDiffer(c: char, d: char, a: seq<int>, b: seq<int>)
    requires c != d
    ensures GreaterUnits(UnitsOf(c) + a, UnitsOf(d) + b) <==> Rank(c) > Rank(d)
  {
    var x, y := UnitsOf(c) + a, UnitsOf(d) + b;
    assert x[0] == UnitsOf(c)[0] && y[0] == UnitsOf(d)[0];
    if c as int >= 0x1_0000 && d as int >= 0x1_0000 {
      PairsDiffer(c as int - 0x1_0000, d as int - 0x1_0000);
      assert x[1..][0] == UnitsOf(c)[1] && y[1..][0] == UnitsOf(d)[1];
    }
  }

  lemma PairsDiffer(m: nat, n: nat)
    requires m != n
    ensures m > n <==> m / 0x400 > n / 0x400 || (m / 0x400 == n / 0x400 && m % 0x400 > n % 0x400)
    ensures m / 0x400 != n / 0x400 || m % 0x400 != n % 0x400
  {}

  /** The comparison of keys is that of their UTF-16 code units. */
  lemma {:induction false} GreaterIsByUnits(a: string, b: string)
    ensures Greater(a, b) <==> GreaterUnits(Units(a), Units(b))
    decreases |a|
  {
    hide Rank;
    if a != "" && b != "" {
      if a[0] == b[0] {
        hide UnitsOf;
        GreaterIsByUnits(a[1..], b[1..]);
        SomeUnits(a[0]);
        CommonUnits(UnitsOf(a[0]), Units(a[1..]), Units(b[1..]));
      } else {
        UnitsDiffer(a[0], b[0], Units(a[1..]), Units(b[1..]));
      }
    }
  }

  lemma SomeUnits(c: char)
    ensures 1 <= |UnitsOf(c)| <= 2
  {}

  /** Pinned rows first, then the later time first, then the key that `later` puts after the other first. */
  ghost predicate InOrderBy(rows: seq<Row>, later: (string, string) -> bool) {
    forall i, j :: 0 <= i < j < |rows| ==>
      && (rows[j].pinned ==> rows[i].pinned)
      && (rows[i].pinned == rows[j].pinned ==>
            && rows[i].sortMs >= rows[j].sortMs
            && (rows[i].sortMs == rows[j].sortMs ==> !later(rows[j].key, rows[i].key)))
  }

  /** The detector's order, told by pin, time and the code units of the keys. */
  lemma SortedMeans(rows: seq<Row>)
    ensures Sorted(rows) <==> InOrderBy(rows, (a, b) => GreaterUnits(Units(a), Units(b)))
  {
    hide Greater, GreaterUnits, Units;
    forall i, j | 0 <= i < j < |rows|
      ensures Greater(rows[j].key, rows[i].key) <==> GreaterUnits(Units(rows[j].key), Units(rows[i].key))
    {
      GreaterIsByUnits(rows[j].key, rows[i].key);
    }
  }

  lemma NotBeforeIsTransitive(a: Row, b: Row, c: Row)
    requires !Before(b, a) && !Before(c, b)
    ensures !Before(c, a)
  {
    GreaterIsTotal(a.key, b.key);
    GreaterIsTotal(b.key, c.key);
    GreaterIsTotal(a.key, c.key);
    if Greater(a.key, b.key) && Greater(b.key, c.key) {
      GreaterIsTransitive(a.key, b.key, c.key);
    }
  }

  lemma BeforeIsAsymmetric(a: Row, b: Row)
    ensures !(Before(a, b) && Before(b, a))
  {
    GreaterIsTotal(a.key, b.key);
  }

  lemma {:induction false} SortedOneMore(rows: seq<Row>, i: nat)
    requires 0 < i < |rows| && Sorted(rows[..i]) && !Before(rows[i], rows[i - 1])
    ensures Sorted(rows[..i + 1])
  {
    forall j | 0 <= j < i
      ensures !Before(rows[i], rows[j])
    {
      if j < i - 1 {
        assert !Before(rows[..i][i - 1], rows[..i][j]);
        NotBeforeIsTransitive(rows[j], rows[i - 1], rows[i]);
      }
    }
  }

  /** The detector: true exactly when some row stands after one it should precede. */
  method ChatsSortNeedsCorrection(rows: seq<Row>) returns (needed: bool)
    ensures needed <==> !Sorted(rows)
  {
    var previousPinned := true;
    var previousSortMs: Option<int> := None;  // None is the initial infinity
    var previousKey := "\U{ffff}";
    var i := 0;
    while i < |rows|
      invariant 0 <= i <= |rows|
      invariant i == 0 ==> previousPinned && previousSortMs == None
      invariant i > 0 ==> previousPinned == rows[i - 1].pinned && previousKey == rows[i - 1].key
      invariant i > 0 ==> previousSortMs == Some(rows[i - 1].sortMs)
      invariant Sorted(rows[..i])
    {
      var row := rows[i];
      if previousPinned && !row.pinned {
        if i > 0 {
          SortedOneMore(rows, i);
        }
        previousPinned, previousSortMs, previousKey := false, Some(row.sortMs), row.key;
        i := i + 1;
        continue;
      }
      if !previousPinned && row.pinned {
        assert Before(rows[i], rows[i - 1]);
        return true;
      }
      if previousSortMs.Some? && (row.sortMs > previousSortMs.value
                                  || (row.sortMs == previousSortMs.value && Greater(row.key, previousKey))) {
        assert Before(rows[i], rows[i - 1]);
        return true;
      }
      if i > 0 {
        SortedOneMore(rows, i);
      }
      previousSortMs, previousKey := Some(row.sortMs), row.key;
      i := i + 1;
    }
    assert rows[..i] == rows;
    return false;
  }

  // ---------------------------------------------------------------------------------------------
  // Sorting with the comparator of the reorder, which compares keys by locale

  type Locale = (string, string) -> int

  /** A comparison that orders all strings; like `localeCompare` it may call different strings equal. */
  ghost predicate IsLocale(loc: Locale) {
    && (forall a, b :: loc(a, b) < 0 <==> loc(b, a) > 0)
    && (forall a, b, c :: loc(a, b) <= 0 && loc(b, c) <= 0 ==> loc(a, c) <= 0)
  }

  function Compare(loc: Locale, left: Row, right: Row): int {
    if left.pinned != right.pinned then (if left.pinned then -1 else 1)
    else if left.sortMs != right.sortMs then right.sortMs - left.sortMs
    else loc(right.key, left.key)
  }

  /** Where `x` goes in a sorted sequence: in front of the first row that must follow it. */
  function Place(loc: Locale, sorted: seq<Row>, x: Row): (k: nat)
    ensures k <= |sorted|
    ensures forall i :: 0 <= i < k ==> Compare(loc, x, sorted[i]) >= 0
    ensures k < |sorted| ==> Compare(loc, x, sorted[k]) < 0
  {
    if sorted == [] || Compare(loc, x, sorted[0]) < 0 then 0 else 1 + Place(loc, sorted[1..], x)
  }

  /** The stable sort: rows are placed one after the other. */
  function SortRows(loc: Locale, rows: seq<Row>): seq<Row> {
    if rows == [] then []
    else
      var sorted := SortRows(loc, rows[..|rows| - 1]);
      var x := rows[|rows| - 1];
      Placed(loc, sorted, x)
  }

  function Placed(loc: Locale, sorted: seq<Row>, x: Row): seq<Row> {
    var k := Place(loc, sorted, x);
    sorted[..k] + [x] + sorted[k..]
  }

  ghost predicate CompareSorted(loc: Locale, rows: seq<Row>) {
    forall i, j :: 0 <= i < j < |rows| ==> Compare(loc, rows[i], rows[j]) <= 0
  }

  lemma CompareTransitive(loc: Locale, a: Row, b: Row, c: Row)
    requires IsLocale(loc) && Compare(loc, a, b) <= 0 && Compare(loc, b, c) <= 0
    ensures Compare(loc, a, c) <= 0
  {}

  lemma CompareFlips(loc: Locale, a: Row, b: Row)
    requires IsLocale(loc)
    ensures Compare(loc, a, b) <= 0 <==> Compare(loc, b, a) >= 0
    ensures Compare(loc, a, b) < 0 <==> Compare(loc, b, a) > 0
  {}

  lemma InsertedAt(sorted: seq<Row>, k: nat, x: Row)
    requires k <= |sorted|
    ensures var r := sorted[..k] + [x] + sorted[k..];
            && |r| == |sorted| + 1 && r[k] == x
            && (forall i :: 0 <= i < k ==> r[i] == sorted[i])
            && forall i :: k < i < |r| ==> r[i] == sorted[i - 1]
  {}

  /** Where a placed row stands relative to every row that was there. */
  lemma PlaceDivides(loc: Locale, sorted: seq<Row>, x: Row, i: nat)
    requires IsLocale(loc) && CompareSorted(loc, sorted) && i < |sorted|
    ensures i < Place(loc, sorted, x) <==> Compare(loc, x, sorted[i]) >= 0
  {
    hide Compare, IsLocale, Place;
    var k := Place(loc, sorted, x);
    if k < i {
      CompareFlips(loc, sorted[k], x);
      if Compare(loc, x, sorted[i]) >= 0 {
        CompareFlips(loc, sorted[i], x);
        CompareTransitive(loc, sorted[k], sorted[i], x);
      }
    }
  }

  lemma PlaceSorts(loc: Locale, sorted: seq<Row>, x: Row)
    requires IsLocale(loc) && CompareSorted(loc, sorted)
    ensures CompareSorted(loc, Placed(loc, sorted, x))
  {
    hide Compare, IsLocale, Place, CompareSorted;
    var k := Place(loc, sorted, x);
    forall i | 0 <= i < |sorted|
      ensures if i < k then Compare(loc, sorted[i], x) <= 0 else Compare(loc, x, sorted[i]) <= 0
    {
      PlaceDivides(loc, sorted, x, i);
      CompareFlips(loc, sorted[i], x);
    }
    InsertCompareSorted(loc, sorted, k, x);
  }

  lemma InsertCompareSorted(loc: Locale, sorted: seq<Row>, k: nat, x: Row)
    requires k <= |sorted| && CompareSorted(loc, sorted)
    requires forall i :: 0 <= i < |sorted| ==> if i < k then Compare(loc, sorted[i], x) <= 0
        else Compare(loc, x, sorted[i]) <= 0
    ensures CompareSorted(loc, sorted[..k] + [x] + sorted[k..])
  {
    hide Compare;
    var r := sorted[..k] + [x] + sorted[k..];
    InsertedAt(sorted, k, x);
    forall i, j | 0 <= i < j < |r|
      ensures Compare(loc, r[i], r[j]) <= 0
    {
      if j == k {
        assert r[i] == sorted[i];
      } else if i == k {
        assert r[j] == sorted[j - 1];
      } else {
        var a, b := if i < k then i else i - 1, if j < k then j else j - 1;
        assert r[i] == sorted[a] && r[j] == sorted[b];
      }
    }
  }

  lemma {:induction false} SortRowsSorts(loc: Locale, rows: seq<Row>)
    requires IsLocale(loc)
    ensures CompareSorted(loc, SortRows(loc, rows))
    ensures multiset(SortRows(loc, rows)) == multiset(rows)
    ensures |SortRows(loc, rows)| == |rows|
  {
    hide Compare, IsLocale, Placed;
    if rows != [] {
      var front, x := rows[..|rows| - 1], rows[|rows| - 1];
      SortRowsSorts(loc, front);
      var sorted := SortRows(loc, front);
      PlacedMultiset(loc, sorted, x);
      PlaceSorts(loc, sorted, x);
      LastMultiset(rows);
    }
  }

  /** The reorder's order, told by pin, time and the locale. */
  lemma SortRowsMeans(loc: Locale, rows: seq<Row>)
    requires IsLocale(loc)
    ensures InOrderBy(SortRows(loc, rows), (a, b) => loc(a, b) > 0)
  {
    hide IsLocale, SortRows;
    SortRowsSorts(loc, rows);
    LocaleFlips(loc);
  }

  lemma LocaleFlips(loc: Locale)
    requires IsLocale(loc)
    ensures forall a, b :: loc(a, b) < 0 <==> loc(b, a) > 0
  {}

  lemma PlacedMultiset(loc: Locale, sorted: seq<Row>, x: Row)
    ensures multiset(Placed(loc, sorted, x)) == multiset(sorted) + multiset{x}
    ensures |Placed(loc, sorted, x)| == |sorted| + 1
  {
    hide Place;
    var k := Place(loc, sorted, x);
    assert sorted == sorted[..k] + sorted[k..];
  }

  lemma LastMultiset(rows: seq<Row>)
    requires rows != []
    ensures multiset(rows) == multiset(rows[..|rows| - 1]) + multiset{rows[|rows| - 1]}
  {
    assert rows == rows[..|rows| - 1] + [rows[|rows| - 1]];
  }

  lemma PlaceAtEnd(loc: Locale, rows: seq<Row>)
    requires IsLocale(loc) && CompareSorted(loc, rows) && rows != []
    ensures Place(loc, rows[..|rows| - 1], rows[|rows| - 1]) == |rows| - 1
  {
    hide Compare, IsLocale;
    var front, x := rows[..|rows| - 1], rows[|rows| - 1];
    var k := Place(loc, front, x);
    if k < |front| {
      assert Compare(loc, rows[k], rows[|rows| - 1]) <= 0;
      CompareFlips(loc, rows[k], x);
    }
  }

  /** Rows in comparator order stay as they stand. */
  lemma {:induction false} SortedIsFixed(loc: Locale, rows: seq<Row>)
    requires IsLocale(loc) && CompareSorted(loc, rows)
    ensures SortRows(loc, rows) == rows
  {
    hide Compare, IsLocale, Place;
    if rows != [] {
      var front, x := rows[..|rows| - 1], rows[|rows| - 1];
      assert forall i :: 0 <= i < |front| ==> front[i] == rows[i];
      SortedIsFixed(loc, front);
      PlaceAtEnd(loc, rows);
      assert Placed(loc, front, x) == rows;
    }
  }

  // ---------------------------------------------------------------------------------------------
  // Whether the detector accepts what the reorder produces

  /**
   The two rows tie on pin and time, and the plain order wants them the other way round than the locale, or, if
   the locale calls their keys equal, the other way round than they stand.
   */
  predicate Disagrees(loc: Locale, earlier: Row, later: Row) {
    && earlier.pinned == later.pinned && earlier.sortMs == later.sortMs
    && if loc(later.key, earlier.key) <= 0 then Greater(later.key, earlier.key) else Greater(earlier.key, later.key)
  }

  ghost predicate OrdersAgree(loc: Locale, rows: seq<Row>) {
    forall i, j :: 0 <= i < j < |rows| ==> !Disagrees(loc, rows[i], rows[j])
  }

  /** A stable sort that meets `x` after `a` leaves the two out of the detector's order exactly if they disagree. */
  lemma PairDisagrees(loc: Locale, a: Row, x: Row)
    requires IsLocale(loc)
    ensures Disagrees(loc, a, x) <==> if Compare(loc, x, a) >= 0 then Before(x, a) else Before(a, x)
  {
    assert loc(x.key, a.key) <= 0 <==> loc(a.key, x.key) >= 0;
  }

  lemma SameMembers(loc: Locale, rows: seq<Row>)
    requires IsLocale(loc)
    ensures forall r :: r in SortRows(loc, rows) <==> r in rows
  {
    hide SortRows;
    SortRowsSorts(loc, rows);
    var s := SortRows(loc, rows);
    forall r
      ensures r in s <==> r in rows
    {
      assert r in s <==> r in multiset(s);
      assert r in rows <==> r in multiset(rows);
    }
  }

  /** Inserting `x` keeps the detector's order exactly if `x` stands right to every row. */
  lemma InsertSortedIff(sorted: seq<Row>, k: nat, x: Row)
    requires k <= |sorted|
    ensures Sorted(sorted[..k] + [x] + sorted[k..]) <==>
              && Sorted(sorted)
              && forall i :: 0 <= i < |sorted| ==> !(if i < k then Before(x, sorted[i]) else Before(sorted[i], x))
  {
    hide Before;
    var r := sorted[..k] + [x] + sorted[k..];
    InsertedAt(sorted, k, x);
    if Sorted(r) {
      forall i, j | 0 <= i < j < |sorted|
        ensures !Before(sorted[j], sorted[i])
      {
        assert !Before(r[if j < k then j else j + 1], r[if i < k then i else i + 1]);
      }
      forall i | 0 <= i < |sorted|
        ensures !(if i < k then Before(x, sorted[i]) else Before(sorted[i], x))
      {
        assert if i < k then !Before(r[k], r[i]) else !Before(r[i + 1], r[k]);
      }
    } else {
      var i, j :| 0 <= i < j < |r| && Before(r[j], r[i]);
      assert i < k && j < k ==> Before(sorted[j], sorted[i]);
      assert i < k && j > k ==> Before(sorted[j - 1], sorted[i]);
      assert i > k ==> Before(sorted[j - 1], sorted[i - 1]);
    }
  }

  /** The detector accepts what the reorder produces exactly if no two tied rows disagree. */
  lemma {:induction false} ReorderSettlesIff(loc: Locale, rows: seq<Row>)
    requires IsLocale(loc)
    ensures Sorted(SortRows(loc, rows)) <==> OrdersAgree(loc, rows)
  {
    hide Compare, Before, IsLocale, Sorted, Disagrees;
    if rows == [] {
      NothingIsSorted();
    } else {
      var front, x := rows[..|rows| - 1], rows[|rows| - 1];
      var sorted := SortRows(loc, front);
      var k := Place(loc, sorted, x);
      ReorderSettlesIff(loc, front);
      SortRowsSorts(loc, front);
      InsertSortedIff(sorted, k, x);
      PlacedIff(loc, front, x);
      AgreeOneMore(loc, rows);
    }
  }

  lemma NothingIsSorted()
    ensures Sorted([])
  {}

  lemma AgreeOneMore(loc: Locale, rows: seq<Row>)
    requires rows != []
    ensures var front, x := rows[..|rows| - 1], rows[|rows| - 1];
            OrdersAgree(loc, rows) <==> OrdersAgree(loc, front) && forall a <- front :: !Disagrees(loc, a, x)
  {
    hide Disagrees;
    var front, x := rows[..|rows| - 1], rows[|rows| - 1];
    assert forall i :: 0 <= i < |front| ==> front[i] == rows[i];
    if OrdersAgree(loc, rows) {
      forall a | a in front
        ensures !Disagrees(loc, a, x)
      {
        var i :| 0 <= i < |front| && front[i] == a;
        assert !Disagrees(loc, rows[i], rows[|rows| - 1]);
      }
    } else if OrdersAgree(loc, front) {
      var i, j :| 0 <= i < j < |rows| && Disagrees(loc, rows[i], rows[j]);
      if j == |front| {
        assert front[i] in front;
      }
    }
  }

  lemma PlacedIff(loc: Locale, front: seq<Row>, x: Row)
    requires IsLocale(loc)
    ensures var sorted := SortRows(loc, front);
            var k := Place(loc, sorted, x);
            (forall i :: 0 <= i < |sorted| ==> !(if i < k then Before(x, sorted[i]) else Before(sorted[i], x)))
            <==> forall a <- front :: !Disagrees(loc, a, x)
  {
    hide Compare, Before, IsLocale, Place, SortRows, Disagrees;
    var sorted := SortRows(loc, front);
    var k := Place(loc, sorted, x);
    SortRowsSorts(loc, front);
    SameMembers(loc, front);
    forall i | 0 <= i < |sorted|
      ensures (if i < k then Before(x, sorted[i]) else Before(sorted[i], x)) <==> Disagrees(loc, sorted[i], x)
    {
      PlaceDivides(loc, sorted, x, i);
      PairDisagrees(loc, sorted[i], x);
    }
  }

  /** Rows in the detector's order that agree with the locale are in the comparator's order too. */
  lemma AgreeingIsCompareSorted(loc: Locale, rows: seq<Row>)
    requires IsLocale(loc) && Sorted(rows) && OrdersAgree(loc, rows)
    ensures CompareSorted(loc, rows)
  {
    hide Disagrees;
    forall i, j | 0 <= i < j < |rows|
      ensures Compare(loc, rows[i], rows[j]) <= 0
    {
      assert !Disagrees(loc, rows[i], rows[j]) && !Before(rows[j], rows[i]);
      AgreeingPair(loc, rows[i], rows[j]);
    }
  }

  lemma AgreeingPair(loc: Locale, a: Row, b: Row)
    requires IsLocale(loc) && !Disagrees(loc, a, b) && !Before(b, a)
    ensures Compare(loc, a, b) <= 0
  {
    GreaterIsTotal(a.key, b.key);
    assert loc(a.key, a.key) == 0;
  }

  /** For rows that agree, the comparator wants the later one in front exactly if the detector does. */
  lemma AgreeingBefore(loc: Locale, a: Row, x: Row)
    requires IsLocale(loc) && !Disagrees(loc, a, x)
    ensures Compare(loc, x, a) < 0 <==> Before(x, a)
  {
    GreaterIsTotal(a.key, x.key);
    assert loc(a.key, a.key) == 0;
    CompareFlips(loc, a, x);
  }

  /** In locales that put small letters before capitals, two keys of mixed case never come to rest. */
  lemma MixedCaseNeverSettles(loc: Locale)
    requires IsLocale(loc) && loc("alpha-01", "Bravo-02") < 0
    ensures var rows := [Row(1, "alpha-01", false, 5), Row(2, "Bravo-02", false, 5)];
            !Sorted(SortRows(loc, rows)) && SortRows(loc, SortRows(loc, rows)) == SortRows(loc, rows)
  {
    var rows := [Row(1, "alpha-01", false, 5), Row(2, "Bravo-02", false, 5)];
    assert Greater("alpha-01", "Bravo-02");
    assert Disagrees(loc, rows[0], rows[1]);
    ReorderSettlesIff(loc, rows);
    SortRowsSorts(loc, rows);
    SortedIsFixed(loc, SortRows(loc, rows));
  }
}
