/** What the reports list screen computes from the store: the reports sorted
    by numeric id, newest first, then narrowed by a case-insensitive search
    over title, location and description and by a status filter; and the
    message shown when nothing is left. */
module ReportsListScreen {
  import opened Common
  import opened Text
  import opened ReportTypes
  import opened ReportStore

  /** `'all' | 'pending' | 'complete'`. */
  datatype StatusFilter = All | Only(status: Status)

  /** `Number(r.id)`: the report's id read as a decimal number. */
  function IdKey(r: Report): nat
  {
    DecimalValue(r.id)
  }

  /** Ordered by numeric id, largest first. */
  predicate SortedByIdDesc(s: seq<Report>)
  {
    forall i, j :: 0 <= i < j < |s| ==> IdKey(s[i]) >= IdKey(s[j])
  }

  /** A report whose id is at least every id of a sorted list can go in
      front of it. */
  lemma SortedCons(x: Report, s: seq<Report>)
    requires SortedByIdDesc(s)
    requires forall k :: 0 <= k < |s| ==> IdKey(x) >= IdKey(s[k])
    ensures SortedByIdDesc([x] + s)
  {
    forall i, j | 0 <= i < j < |[x] + s|
      ensures IdKey(([x] + s)[i]) >= IdKey(([x] + s)[j])
    {
      if i > 0 {
        assert ([x] + s)[i] == s[i - 1];
      }
      assert ([x] + s)[j] == s[j - 1];
    }
  }

  /** `x` placed in a sorted list before the first report whose id is not
      larger, so that reports with equal ids keep their order. */
  function InsertByIdDesc(x: Report, s: seq<Report>): (r: seq<Report>)
    requires SortedByIdDesc(s)
    ensures SortedByIdDesc(r)
    ensures multiset(r) == multiset(s) + multiset{x}
    ensures |r| == |s| + 1
  {
    if s == [] || IdKey(s[0]) <= IdKey(x) then
      SortedCons(x, s);
      [x] + s
    else
      var rest := InsertByIdDesc(x, s[1..]);
      InsertBelowHead(x, s, rest);
      [s[0]] + rest
  }

  /** The step of the insertion where `x` goes after the head `s[0]`. */
  lemma InsertBelowHead(x: Report, s: seq<Report>, rest: seq<Report>)
    requires s != [] && SortedByIdDesc(s) && IdKey(s[0]) > IdKey(x)
    requires SortedByIdDesc(rest)
    requires multiset(rest) == multiset(s[1..]) + multiset{x}
    ensures SortedByIdDesc([s[0]] + rest)
    ensures multiset([s[0]] + rest) == multiset(s) + multiset{x}
  {
    assert s == [s[0]] + s[1..];
    forall k | 0 <= k < |rest|
      ensures IdKey(s[0]) >= IdKey(rest[k])
    {
      assert rest[k] in multiset(rest);
      if rest[k] != x {
        assert rest[k] in multiset(s[1..]);
        var j :| 0 <= j < |s[1..]| && s[1..][j] == rest[k];
        assert s[j + 1] == rest[k];
      }
    }
    SortedCons(s[0], rest);
  }

  /** `reports.slice().sort((a, b) => Number(b.id) - Number(a.id))`: a sorted
      copy holding exactly the same reports. */
  function SortByIdDesc(reports: seq<Report>): (r: seq<Report>)
    ensures SortedByIdDesc(r)
    ensures multiset(r) == multiset(reports)
    ensures |r| == |reports|
  {
    if reports == [] then []
    else
      assert reports == [reports[0]] + reports[1..];
      InsertByIdDesc(reports[0], SortByIdDesc(reports[1..]))
  }

  /** The search half of the filter: the lower-cased query occurs in the
      lower-cased title, location or description. */
  predicate MatchesSearch(r: Report, query: string)
  {
    Includes(Lower(r.title), Lower(query)) ||
    Includes(Lower(r.location), Lower(query)) ||
    Includes(Lower(r.description), Lower(query))
  }

  /** A report that matches a query still matches it after text is added
      before or after its title, location or description. */
  lemma MatchSurvivesAddedText(r: Report, query: string, before: string, after: string)
    requires MatchesSearch(r, query)
    ensures MatchesSearch(r.(title := before + r.title + after), query)
    ensures MatchesSearch(r.(location := before + r.location + after), query)
    ensures MatchesSearch(r.(description := before + r.description + after), query)
  {
    var q := Lower(query);
    LowerConcat(before, r.title, after);
    LowerConcat(before, r.location, after);
    LowerConcat(before, r.description, after);
    if Includes(Lower(r.title), q) {
      IncludesExtend(Lower(before), Lower(r.title), Lower(after), q);
    }
    if Includes(Lower(r.location), q) {
      IncludesExtend(Lower(before), Lower(r.location), Lower(after), q);
    }
    if Includes(Lower(r.description), q) {
      IncludesExtend(Lower(before), Lower(r.description), Lower(after), q);
    }
  }

  /** The status half of the filter. */
  predicate MatchesStatus(r: Report, filter: StatusFilter)
  {
    filter == All || r.status == filter.status
  }

  predicate Kept(r: Report, query: string, filter: StatusFilter)
  {
    MatchesSearch(r, query) && MatchesStatus(r, filter)
  }

  /** `filteredReports`. */
  function FilteredReports(reports: seq<Report>, query: string, filter: StatusFilter): (r: seq<Report>)
    ensures SortedByIdDesc(r)
    ensures multiset(r) <= multiset(reports)
    ensures forall k :: 0 <= k < |r| ==> Kept(r[k], query, filter)
  {
    var sorted := SortByIdDesc(reports);
    var r := Filter(sorted, (x: Report) => Kept(x, query, filter));
    FilterKeepsSorted(sorted, (x: Report) => Kept(x, query, filter));
    r
  }

  /** Filtering a sorted list leaves it sorted. */
  lemma {:induction false} FilterKeepsSorted(s: seq<Report>, keep: Report -> bool)
    requires SortedByIdDesc(s)
    ensures SortedByIdDesc(Filter(s, keep))
  {
    if s != [] {
      FilterKeepsSorted(s[1..], keep);
      var rest := Filter(s[1..], keep);
      forall k | 0 <= k < |rest|
        ensures IdKey(s[0]) >= IdKey(rest[k])
      {
        var j :| 0 <= j < |s[1..]| && s[1..][j] == rest[k];
        assert s[j + 1] == rest[k];
      }
      if keep(s[0]) {
        SortedCons(s[0], rest);
      }
    }
  }

  /** A report of the store is listed exactly when it passes both halves of
      the filter. */
  lemma FilteredMembership(reports: seq<Report>, query: string, filter: StatusFilter, x: Report)
    ensures x in FilteredReports(reports, query, filter) <==> x in reports && Kept(x, query, filter)
  {
    var sorted := SortByIdDesc(reports);
    assert x in sorted <==> x in multiset(sorted);
    assert x in reports <==> x in multiset(reports);
  }

  /** Every copy of a kept report is listed: the list holds exactly the
      reports the filter keeps from the store, each as often as the store
      holds it, only in a different order. */
  lemma FilteredMultiset(reports: seq<Report>, query: string, filter: StatusFilter)
    ensures multiset(FilteredReports(reports, query, filter)) ==
            multiset(Filter(reports, (x: Report) => Kept(x, query, filter)))
  {
    var keep := (x: Report) => Kept(x, query, filter);
    var sorted := SortByIdDesc(reports);
    assert FilteredReports(reports, query, filter) == Filter(sorted, keep);
    forall x
      ensures multiset(Filter(sorted, keep))[x] == multiset(Filter(reports, keep))[x]
    {
      FilterMultiplicity(sorted, keep, x);
      FilterMultiplicity(reports, keep, x);
    }
  }

  /** With filter 'pending' or 'complete' every listed report has that
      status. */
  lemma FilteredStatus(reports: seq<Report>, query: string, s: Status)
    ensures forall k :: 0 <= k < |FilteredReports(reports, query, Only(s))| ==>
              FilteredReports(reports, query, Only(s))[k].status == s
  {
  }

  /** With filter 'all' and an empty query every report is listed. */
  lemma EverythingListedByDefault(reports: seq<Report>)
    ensures FilteredReports(reports, "", All) == SortByIdDesc(reports)
  {
    var sorted := SortByIdDesc(reports);
    forall k | 0 <= k < |sorted|
      ensures Kept(sorted[k], "", All)
    {
      assert Lower("") == "";
      IncludesEmpty(Lower(sorted[k].title));
    }
    FilterKeepsAll(sorted, (x: Report) => Kept(x, "", All));
  }

  /** The search ignores case: two queries that differ only in the case of
      their letters list the same reports. */
  lemma SearchIgnoresCase(reports: seq<Report>, q1: string, q2: string, filter: StatusFilter)
    requires Lower(q1) == Lower(q2)
    ensures FilteredReports(reports, q1, filter) == FilteredReports(reports, q2, filter)
  {
    var sorted := SortByIdDesc(reports);
    FilterSame(sorted, (x: Report) => Kept(x, q1, filter), (x: Report) => Kept(x, q2, filter));
  }

  /** The text shown when no report is listed. */
  function EmptyMessage(query: string, filter: StatusFilter): (m: string)
    ensures m == "No reports match your search criteria" <==> query != "" || filter != All
    ensures m == "No reports yet. Create your first report!" <==> query == "" && filter == All
  {
    if query != "" || filter != All then "No reports match your search criteria"
    else "No reports yet. Create your first report!"
  }
}
