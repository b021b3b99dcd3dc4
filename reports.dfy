/**
 * The Reports screen: a table of reports that the user narrows with a search
 * box and a status selector and orders by clicking a column header.
 *
 * The list shown is `filterReports`: keep the reports that pass the search and
 * the status filter, then sort them with a three-way comparator on the chosen
 * field in the chosen direction. The sort is JavaScript's `Array.prototype.sort`,
 * which is stable; it is modelled here by a stable insertion sort, and
 * `StableSortIsUnique` shows that every stable sort by this comparator gives
 * the same list, so the choice of algorithm does not matter.
 */
module Reports {
  import opened Strings
  import opened Lists

  /** One row of the user or manager report table; every field is text. */
  datatype Report = Report(
    id: string,
    reportType: string,
    reportedBy: string,
    status: string,
    date: string,
    priority: string)

  datatype Direction = Asc | Desc

  function Flip(d: Direction): Direction
  {
    if d == Asc then Desc else Asc
  }

  /* ---------------- Filtering ---------------- */

  /** `Object.values(report)`, in declaration order. */
  function Values(r: Report): seq<string>
  {
    [r.id, r.reportType, r.reportedBy, r.status, r.date, r.priority]
  }

  /** The search box: an empty query keeps the report; otherwise some field,
      lower-cased, must contain the lower-cased query. */
  predicate MatchesSearch(r: Report, query: string)
  {
    query == "" || exists v :: v in Values(r) && Contains(Lower(v), Lower(query))
  }

  /** The status selector: "all" keeps the report, any other value must equal its status. */
  predicate MatchesStatus(r: Report, statusFilter: string)
  {
    statusFilter == "all" || r.status == statusFilter
  }

  /** The predicate passed to `reports.filter`. */
  function Keep(query: string, statusFilter: string): Report -> bool
  {
    r => MatchesSearch(r, query) && MatchesStatus(r, statusFilter)
  }

  /** Two queries that differ only in letter case keep the same reports. */
  lemma SearchIgnoresCase(r: Report, q1: string, q2: string)
    requires Lower(q1) == Lower(q2)
    ensures MatchesSearch(r, q1) == MatchesSearch(r, q2)
  {
  }

  /** A query that occurs in any field of the report, typed in any case, keeps it. */
  lemma FieldValueFound(r: Report, v: string, query: string)
    requires v in Values(r) && Contains(v, query)
    ensures MatchesSearch(r, query)
  {
    ContainsLower(v, query);
  }

  /* ---------------- The comparator ---------------- */

  /** `report[field]`. A field that reports do not have reads as `undefined`
      for every report, and `undefined` is neither below nor above itself;
      the empty string stands for it, which compares the same way. */
  function FieldValue(r: Report, field: string): string
  {
    match field
    case "id" => r.id
    case "reportType" => r.reportType
    case "reportedBy" => r.reportedBy
    case "status" => r.status
    case "date" => r.date
    case "priority" => r.priority
    case _ => ""
  }

  /** The comparator passed to `sort`: negative when `a` goes first, positive
      when `b` goes first, zero when their keys are equal. */
  function Compare(a: Report, b: Report, field: string, dir: Direction): int
  {
    var x, y := FieldValue(a, field), FieldValue(b, field);
    if Less(x, y) then (if dir == Asc then -1 else 1)
    else if Less(y, x) then (if dir == Asc then 1 else -1)
    else 0
  }

  /** Key `x` may precede key `y`: `x <= y` ascending, `x >= y` descending. */
  predicate Ordered(x: string, y: string, dir: Direction)
  {
    if dir == Asc then !Less(y, x) else !Less(x, y)
  }

  /** The list is non-decreasing by `field` when ascending and
      non-increasing when descending. */
  ghost predicate Sorted(s: seq<Report>, field: string, dir: Direction)
  {
    forall i, j :: 0 <= i < j < |s| ==> Ordered(FieldValue(s[i], field), FieldValue(s[j], field), dir)
  }

  /** What the comparator's sign means: zero exactly for equal keys, positive
      exactly when `a` may not precede `b`, and swapping the arguments
      negates it. */
  lemma CompareMeaning(a: Report, b: Report, field: string, dir: Direction)
    ensures Compare(a, b, field, dir) == 0 <==> FieldValue(a, field) == FieldValue(b, field)
    ensures Compare(a, b, field, dir) > 0 <==> !Ordered(FieldValue(a, field), FieldValue(b, field), dir)
    ensures Compare(a, b, field, dir) == -Compare(b, a, field, dir)
  {
    var x, y := FieldValue(a, field), FieldValue(b, field);
    LessTrichotomy(x, y);
    LessIrreflexive(x);
    if Less(x, y) { LessAsymmetric(x, y); }
    if Less(y, x) { LessAsymmetric(y, x); }
  }

  lemma OrderedTransitive(x: string, y: string, z: string, dir: Direction)
    requires Ordered(x, y, dir) && Ordered(y, z, dir)
    ensures Ordered(x, z, dir)
  {
    LessTrichotomy(x, y);
    LessTrichotomy(y, z);
    if x != y && y != z {
      if dir == Asc {
        LessTransitive(x, y, z);
        LessAsymmetric(x, z);
      } else {
        LessTransitive(z, y, x);
        LessAsymmetric(z, x);
      }
    }
  }

  /** Two keys each of which may precede the other are equal. */
  lemma OrderedAntisymmetric(x: string, y: string, dir: Direction)
    requires Ordered(x, y, dir) && Ordered(y, x, dir)
    ensures x == y
  {
    LessTrichotomy(x, y);
  }

  /** Any two keys may be placed in one order or the other. */
  lemma OrderedTotal(x: string, y: string, dir: Direction)
    ensures Ordered(x, y, dir) || Ordered(y, x, dir)
  {
    LessTrichotomy(x, y);
    LessIrreflexive(x);
    if Less(x, y) { LessAsymmetric(x, y); }
  }

  /* ---------------- Sorting ---------------- */

  /** Inserts `x` before the first element it does not have to follow. */
  function Insert(x: Report, t: seq<Report>, field: string, dir: Direction): (r: seq<Report>)
    ensures multiset(r) == multiset(t) + multiset{x}
  {
    if t == [] then [x]
    else if Compare(x, t[0], field, dir) > 0 then
      assert t == [t[0]] + t[1..];
      [t[0]] + Insert(x, t[1..], field, dir)
    else [x] + t
  }

  /** The list `reports.sort(comparator)` returns. */
  function Sort(s: seq<Report>, field: string, dir: Direction): (r: seq<Report>)
    ensures multiset(r) == multiset(s)
    ensures Sorted(r, field, dir)
  {
    if s == [] then []
    else
      var t := Sort(s[1..], field, dir);
      InsertSorted(s[0], t, field, dir);
      assert s == [s[0]] + s[1..];
      Insert(s[0], t, field, dir)
  }

  /** A list is sorted when its head may precede every later element and its tail is sorted. */
  lemma SortedCons(y: Report, t: seq<Report>, field: string, dir: Direction)
    requires Sorted(t, field, dir)
    requires forall z :: z in t ==> Ordered(FieldValue(y, field), FieldValue(z, field), dir)
    ensures Sorted([y] + t, field, dir)
  {
    var s := [y] + t;
    forall i, j | 0 <= i < j < |s|
      ensures Ordered(FieldValue(s[i], field), FieldValue(s[j], field), dir)
    {
      if i == 0 {
        assert s[j] == t[j - 1] && s[j] in t;
      } else {
        assert s[i] == t[i - 1] && s[j] == t[j - 1];
      }
    }
  }

  /** Inserting into a sorted list keeps it sorted. */
  lemma {:induction false} InsertSorted(x: Report, t: seq<Report>, field: string, dir: Direction)
    requires Sorted(t, field, dir)
    ensures Sorted(Insert(x, t, field, dir), field, dir)
  {
    var kx := FieldValue(x, field);
    if t == [] {
    } else if Compare(x, t[0], field, dir) > 0 {
      var k0 := FieldValue(t[0], field);
      var t' := t[1..];
      assert Sorted(t', field, dir);
      InsertSorted(x, t', field, dir);
      CompareMeaning(x, t[0], field, dir);
      OrderedTotal(kx, k0, dir);
      var u := Insert(x, t', field, dir);
      forall z | z in u ensures Ordered(k0, FieldValue(z, field), dir) {
        assert z in multiset(u);
        if z != x {
          assert z in multiset(t');
          var j :| 0 <= j < |t'| && t'[j] == z;
          assert t[j + 1] == z;
        }
      }
      SortedCons(t[0], u, field, dir);
    } else {
      CompareMeaning(x, t[0], field, dir);
      forall z | z in t ensures Ordered(kx, FieldValue(z, field), dir) {
        var j :| 0 <= j < |t| && t[j] == z;
        if j > 0 {
          OrderedTransitive(kx, FieldValue(t[0], field), FieldValue(z, field), dir);
        }
      }
      SortedCons(x, t, field, dir);
    }
  }

  /* ---------------- The whole pipeline ---------------- */

  /** `filterReports`: the reports that pass both filters, sorted. */
  function FilterReports(reports: seq<Report>, query: string, statusFilter: string, field: string, dir: Direction)
    : (r: seq<Report>)
    ensures forall x :: multiset(r)[x] == if MatchesSearch(x, query) && MatchesStatus(x, statusFilter) then multiset(reports)[x] else 0
    ensures |r| <= |reports|
    ensures Sorted(r, field, dir)
  {
    var kept := Filter(reports, Keep(query, statusFilter));
    FilterCount(reports, Keep(query, statusFilter));
    assert |multiset(kept)| == |kept|;
    Sort(kept, field, dir)
  }

  /* ---------------- Stability ---------------- */

  /** The predicate "has key `k` in `field`". */
  function KeyIs(field: string, k: string): Report -> bool
  {
    r => FieldValue(r, field) == k
  }

  /** Insertion puts `x` before every element with the same key. */
  lemma {:induction false} InsertKeyFilter(x: Report, t: seq<Report>, field: string, dir: Direction, k: string)
    ensures Filter(Insert(x, t, field, dir), KeyIs(field, k))
         == if FieldValue(x, field) == k then [x] + Filter(t, KeyIs(field, k)) else Filter(t, KeyIs(field, k))
  {
    var p := KeyIs(field, k);
    if t == [] {
      FilterCons(x, [], p);
    } else if Compare(x, t[0], field, dir) > 0 {
      CompareMeaning(x, t[0], field, dir);
      InsertKeyFilter(x, t[1..], field, dir, k);
      FilterCons(t[0], Insert(x, t[1..], field, dir), p);
      FilterCons(t[0], t[1..], p);
      assert t == [t[0]] + t[1..];
    } else {
      FilterCons(x, t, p);
    }
  }

  /** The sort is stable: the reports sharing any one key appear in their input order. */
  lemma {:induction false} SortStable(s: seq<Report>, field: string, dir: Direction, k: string)
    ensures Filter(Sort(s, field, dir), KeyIs(field, k)) == Filter(s, KeyIs(field, k))
  {
    if s != [] {
      SortStable(s[1..], field, dir, k);
      InsertKeyFilter(s[0], Sort(s[1..], field, dir), field, dir, k);
      FilterCons(s[0], s[1..], KeyIs(field, k));
      assert s == [s[0]] + s[1..];
    }
  }

  /** `filterReports` keeps reports with equal keys in their input order. */
  lemma FilterReportsStable(reports: seq<Report>, query: string, statusFilter: string, field: string, dir: Direction, k: string)
    ensures Filter(FilterReports(reports, query, statusFilter, field, dir), KeyIs(field, k))
         == Filter(Filter(reports, Keep(query, statusFilter)), KeyIs(field, k))
  {
    SortStable(Filter(reports, Keep(query, statusFilter)), field, dir, k);
  }

  /** Two lists agree on the reports of every key. */
  ghost predicate SameKeyGroups(r: seq<Report>, q: seq<Report>, field: string)
  {
    forall k :: Filter(r, KeyIs(field, k)) == Filter(q, KeyIs(field, k))
  }

  /** The head of a list is the first report of its own key group. */
  lemma HeadStartsGroup(r: seq<Report>, field: string)
    requires r != []
    ensures Filter(r, KeyIs(field, FieldValue(r[0], field)))
         == [r[0]] + Filter(r[1..], KeyIs(field, FieldValue(r[0], field)))
  {
    assert r == [r[0]] + r[1..];
    FilterCons(r[0], r[1..], KeyIs(field, FieldValue(r[0], field)));
  }

  /** In a sorted list, the key of the head may precede the key of any element. */
  lemma SortedHeadFirst(q: seq<Report>, field: string, dir: Direction, x: Report)
    requires Sorted(q, field, dir) && x in q
    ensures Ordered(FieldValue(q[0], field), FieldValue(x, field), dir)
  {
    var j :| 0 <= j < |q| && q[j] == x;
    if j == 0 {
      OrderedTotal(FieldValue(x, field), FieldValue(x, field), dir);
    }
  }

  /** Lists with the same key groups start with the same report, if sorted. */
  lemma {:induction false} SortedAgreeingHeads(r: seq<Report>, q: seq<Report>, field: string, dir: Direction)
    requires Sorted(r, field, dir) && Sorted(q, field, dir)
    requires SameKeyGroups(r, q, field)
    requires r != []
    ensures q != [] && r[0] == q[0]
  {
    var k0 := FieldValue(r[0], field);
    HeadStartsGroup(r, field);
    assert Filter(q, KeyIs(field, k0)) == Filter(r, KeyIs(field, k0));
    FilterMembership(q, KeyIs(field, k0), r[0]);
    var k1 := FieldValue(q[0], field);
    HeadStartsGroup(q, field);
    assert Filter(r, KeyIs(field, k1)) == Filter(q, KeyIs(field, k1));
    FilterMembership(r, KeyIs(field, k1), q[0]);
    SortedHeadFirst(q, field, dir, r[0]);
    SortedHeadFirst(r, field, dir, q[0]);
    OrderedAntisymmetric(k0, k1, dir);
    assert [r[0]] + Filter(r[1..], KeyIs(field, k0)) == [q[0]] + Filter(q[1..], KeyIs(field, k0));
  }

  /** Removing a common head keeps the key groups equal. */
  lemma AgreeingTails(r: seq<Report>, q: seq<Report>, field: string)
    requires r != [] && q != [] && r[0] == q[0]
    requires SameKeyGroups(r, q, field)
    ensures SameKeyGroups(r[1..], q[1..], field)
  {
    assert r == [r[0]] + r[1..];
    assert q == [q[0]] + q[1..];
    forall k ensures Filter(r[1..], KeyIs(field, k)) == Filter(q[1..], KeyIs(field, k)) {
      assert Filter(r, KeyIs(field, k)) == Filter(q, KeyIs(field, k));
      FilterCons(r[0], r[1..], KeyIs(field, k));
      FilterCons(q[0], q[1..], KeyIs(field, k));
    }
  }

  /** Two sorted lists that agree on the reports of every key are equal. */
  lemma {:induction false} SortedAgreeingEqual(r: seq<Report>, q: seq<Report>, field: string, dir: Direction)
    requires Sorted(r, field, dir) && Sorted(q, field, dir)
    requires SameKeyGroups(r, q, field)
    ensures r == q
    decreases |r|
  {
    if r == [] {
      if q != [] {
        assert SameKeyGroups(q, r, field);
        SortedAgreeingHeads(q, r, field, dir);
      }
    } else {
      SortedAgreeingHeads(r, q, field, dir);
      AgreeingTails(r, q, field);
      SortedAgreeingEqual(r[1..], q[1..], field, dir);
      assert r == [r[0]] + r[1..] && q == [q[0]] + q[1..];
    }
  }

  /** Any list that is sorted and keeps every key's reports in input order is
      the list `Sort` returns: the stable sort is unique. */
  lemma StableSortIsUnique(s: seq<Report>, r: seq<Report>, field: string, dir: Direction)
    requires Sorted(r, field, dir)
    requires SameKeyGroups(r, s, field)
    ensures r == Sort(s, field, dir)
  {
    forall k ensures Filter(r, KeyIs(field, k)) == Filter(Sort(s, field, dir), KeyIs(field, k)) {
      SortStable(s, field, dir, k);
    }
    SortedAgreeingEqual(r, Sort(s, field, dir), field, dir);
  }

  /* ---------------- Filter and sort commute ---------------- */

  /** Filtering after an insertion into a sorted list equals inserting into the filtered list. */
  lemma {:induction false} FilterInsert(x: Report, t: seq<Report>, field: string, dir: Direction, p: Report -> bool)
    requires Sorted(t, field, dir)
    ensures Filter(Insert(x, t, field, dir), p)
         == if p(x) then Insert(x, Filter(t, p), field, dir) else Filter(t, p)
  {
    if t == [] {
      FilterCons(x, [], p);
    } else {
      assert t == [t[0]] + t[1..];
      FilterCons(t[0], t[1..], p);
      if Compare(x, t[0], field, dir) > 0 {
        FilterInsert(x, t[1..], field, dir, p);
        FilterCons(t[0], Insert(x, t[1..], field, dir), p);
      } else {
        FilterCons(x, t, p);
        var f := Filter(t, p);
        if p(x) && f != [] {
          // Every element of t, in particular the first kept one, may follow x.
          FilterMembership(t, p, f[0]);
          var j :| 0 <= j < |t| && t[j] == f[0];
          CompareMeaning(x, t[0], field, dir);
          if j > 0 {
            OrderedTransitive(FieldValue(x, field), FieldValue(t[0], field), FieldValue(f[0], field), dir);
          }
          CompareMeaning(x, f[0], field, dir);
        }
      }
    }
  }

  /** Sorting then filtering gives the same list as filtering then sorting. */
  lemma {:induction false} SortFilterCommute(s: seq<Report>, field: string, dir: Direction, p: Report -> bool)
    ensures Filter(Sort(s, field, dir), p) == Sort(Filter(s, p), field, dir)
  {
    if s != [] {
      SortFilterCommute(s[1..], field, dir, p);
      FilterInsert(s[0], Sort(s[1..], field, dir), field, dir, p);
      FilterCons(s[0], s[1..], p);
      assert s == [s[0]] + s[1..];
    }
  }

  /* ---------------- Reversing the direction ---------------- */

  /** No two reports in the list share a key. */
  ghost predicate DistinctKeys(s: seq<Report>, field: string)
  {
    forall i, j :: 0 <= i < j < |s| ==> FieldValue(s[i], field) != FieldValue(s[j], field)
  }

  lemma {:induction false} DistinctKeysFilter(s: seq<Report>, field: string, k: string)
    requires DistinctKeys(s, field)
    ensures |Filter(s, KeyIs(field, k))| <= 1
  {
    if s != [] {
      assert s == [s[0]] + s[1..];
      FilterCons(s[0], s[1..], KeyIs(field, k));
      if FieldValue(s[0], field) == k {
        forall z | z in s[1..] ensures !KeyIs(field, k)(z) {
          var j :| 0 <= j < |s[1..]| && s[1..][j] == z;
          assert s[j + 1] == z;
        }
        FilterKeepsNone(s[1..], KeyIs(field, k));
      } else {
        DistinctKeysFilter(s[1..], field, k);
      }
    }
  }

  /** Read backwards, an ascending list is descending. */
  lemma ReverseSorted(up: seq<Report>, field: string)
    requires Sorted(up, field, Asc)
    ensures Sorted(Reverse(up), field, Desc)
  {
    var down := Reverse(up);
    forall i, j | 0 <= i < j < |down|
      ensures Ordered(FieldValue(down[i], field), FieldValue(down[j], field), Desc)
    {
      assert down[i] == up[|up| - 1 - i] && down[j] == up[|up| - 1 - j];
    }
  }

  /** When no two reports share a key, reversing the ascending sort keeps every key group. */
  lemma ReverseKeepsGroups(s: seq<Report>, field: string)
    requires DistinctKeys(s, field)
    ensures SameKeyGroups(Reverse(Sort(s, field, Asc)), s, field)
  {
    var up := Sort(s, field, Asc);
    forall k ensures Filter(Reverse(up), KeyIs(field, k)) == Filter(s, KeyIs(field, k)) {
      FilterReverse(up, KeyIs(field, k));
      SortStable(s, field, Asc, k);
      DistinctKeysFilter(s, field, k);
      var f := Filter(s, KeyIs(field, k));
      assert Reverse(f) == f;
    }
  }

  /** When no two reports share a key, descending order is exactly the
      reverse of ascending order. */
  lemma ReverseDirection(s: seq<Report>, field: string)
    requires DistinctKeys(s, field)
    ensures Sort(s, field, Desc) == Reverse(Sort(s, field, Asc))
  {
    ReverseSorted(Sort(s, field, Asc), field);
    ReverseKeepsGroups(s, field);
    StableSortIsUnique(s, Reverse(Sort(s, field, Asc)), field, Desc);
  }

  /* ---------------- Sort header state ---------------- */

  /** The column the table is sorted by and the direction. */
  datatype SortState = SortState(field: string, direction: Direction)

  /** `handleSort(field)`: the same column flips the direction, a new column
      becomes the sort column in ascending order. */
  function NextSort(s: SortState, field: string): (r: SortState)
    ensures r.field == field
    ensures field == s.field ==> r.direction != s.direction
    ensures field != s.field ==> r.direction == Asc
  {
    if s.field == field then SortState(field, Flip(s.direction)) else SortState(field, Asc)
  }

  /** Clicking the current column twice restores the original state. */
  lemma SameHeaderTwice(s: SortState)
    ensures NextSort(NextSort(s, s.field), s.field) == s
  {
  }

  /** Clicking a new column, then that column again, sorts it descending. */
  lemma NewHeaderTwice(s: SortState, field: string)
    requires field != s.field
    ensures NextSort(NextSort(s, field), field) == SortState(field, Desc)
  {
  }

  /** The query state of the Reports screen and its handlers. */
  class ReportsView {
    var searchQuery: string
    var statusFilter: string
    var sortField: string
    var sortDirection: Direction

    constructor ()
      ensures searchQuery == "" && statusFilter == "all"
      ensures sortField == "date" && sortDirection == Desc
    {
      searchQuery := "";
      statusFilter := "all";
      sortField := "date";
      sortDirection := Desc;
    }

    method HandleSort(field: string)
      modifies this
      ensures SortState(sortField, sortDirection) == NextSort(SortState(old(sortField), old(sortDirection)), field)
      ensures searchQuery == old(searchQuery) && statusFilter == old(statusFilter)
    {
      if sortField == field {
        sortDirection := if sortDirection == Asc then Desc else Asc;
      } else {
        sortField := field;
        sortDirection := Asc;
      }
    }

    method SetSearchQuery(query: string)
      modifies this
      ensures searchQuery == query
      ensures statusFilter == old(statusFilter) && sortField == old(sortField) && sortDirection == old(sortDirection)
    {
      searchQuery := query;
    }

    method SetStatusFilter(status: string)
      modifies this
      ensures statusFilter == status
      ensures searchQuery == old(searchQuery) && sortField == old(sortField) && sortDirection == old(sortDirection)
    {
      statusFilter := status;
    }

    /** The rows the table shows for one list of reports. */
    function Shown(reports: seq<Report>): seq<Report>
      reads this
    {
      FilterReports(reports, searchQuery, statusFilter, sortField, sortDirection)
    }
  }

  /** With the initial query (no search, status "all"), every report is shown. */
  lemma InitialQueryKeepsAll(reports: seq<Report>)
    ensures Filter(reports, Keep("", "all")) == reports
  {
    FilterKeepsAll(reports, Keep("", "all"));
  }

  /** Filtering three reports on status "pending" keeps the first and the
      third, in their original order. */
  lemma StatusFilterExample(a: Report, b: Report, c: Report)
    requires a.status == "pending" && b.status == "verified" && c.status == "pending"
    ensures Filter([a, b, c], Keep("", "pending")) == [a, c]
  {
    var keep := Keep("", "pending");
    assert [a, b, c] == [a] + [b, c] && [b, c] == [b] + [c];
    FilterCons(a, [b, c], keep);
    FilterCons(b, [c], keep);
    FilterCons(c, [], keep);
  }
}
