/** The report store of `stores/reportStore.ts`, the one the screens use: an
    in-memory list of reports with string ids. `addReport` appends the given
    report as it is (no id check), `updateReport` spreads a partial record
    over every report with the id, and `getReport` returns the first report
    with the id. */
module ReportStore {
  import opened Common
  import opened ReportTypes

  /** A report as the store's interface declares it (id, number, status and
      the police-abstract fields), with the fields the new-report form puts
      in it and the screens read. */
  datatype Report = Report(
    id: string, reportNumber: string, title: string, location: string,
    date: string, time: string, status: Status, description: string,
    vehicles: seq<Vehicle>, evidence: seq<Evidence>,
    policeAbstractUri: Option<string>, policeAbstractDate: Option<string>)

  /** `Partial<Report>` over the keys the interface declares. For the optional
      keys, `Some(None)` is the key present with the value `undefined`. */
  datatype Patch = Patch(
    id: Option<string>, reportNumber: Option<string>, status: Option<Status>,
    policeAbstractUri: Option<Option<string>>, policeAbstractDate: Option<Option<string>>)

  /** `{ ...r, ...p }`. */
  function Overlay(r: Report, p: Patch): Report
  {
    r.(id := if p.id.Some? then p.id.value else r.id,
       reportNumber := if p.reportNumber.Some? then p.reportNumber.value else r.reportNumber,
       status := if p.status.Some? then p.status.value else r.status,
       policeAbstractUri := if p.policeAbstractUri.Some? then p.policeAbstractUri.value else r.policeAbstractUri,
       policeAbstractDate := if p.policeAbstractDate.Some? then p.policeAbstractDate.value else r.policeAbstractDate)
  }

  /** `k` is the index of the first report with the id. */
  predicate FirstWithId(reports: seq<Report>, id: string, k: int)
  {
    0 <= k < |reports| && reports[k].id == id && forall j :: 0 <= j < k ==> reports[j].id != id
  }

  /** `reports.find(report => report.id === id)`: the first report with the
      id, or `undefined`. */
  function Find(reports: seq<Report>, id: string): (found: Option<Report>)
    ensures found.None? <==> forall k :: 0 <= k < |reports| ==> reports[k].id != id
    ensures found.Some? ==> exists k :: FirstWithId(reports, id, k) && reports[k] == found.value
  {
    if reports == [] then None
    else if reports[0].id == id then Some(reports[0])
    else
      var found := Find(reports[1..], id);
      assert found.Some? ==> exists k :: FirstWithId(reports, id, k) && reports[k] == found.value by {
        if found.Some? {
          var k :| FirstWithId(reports[1..], id, k) && reports[1..][k] == found.value;
          assert reports[k + 1] == found.value;
          forall j | 0 <= j < k + 1 ensures reports[j].id != id {
            if j > 0 { assert reports[j] == reports[1..][j - 1]; }
          }
          assert FirstWithId(reports, id, k + 1);
        }
      }
      found
  }

  /** The list after `addReport(r)`. */
  function Appended(reports: seq<Report>, r: Report): seq<Report>
  {
    reports + [r]
  }

  /** The list after `updateReport(id, p)`. */
  function Updated(reports: seq<Report>, id: string, p: Patch): seq<Report>
  {
    seq(|reports|, k requires 0 <= k < |reports| =>
      if reports[k].id == id then Overlay(reports[k], p) else reports[k])
  }

  /** Looking up in a concatenation looks in the first part first. */
  lemma {:induction false} FindConcat(a: seq<Report>, b: seq<Report>, id: string)
    ensures Find(a + b, id) == if Find(a, id).Some? then Find(a, id) else Find(b, id)
  {
    if a == [] {
      assert a + b == b;
    } else {
      assert (a + b)[0] == a[0];
      assert (a + b)[1..] == a[1..] + b;
      FindConcat(a[1..], b, id);
    }
  }

  // ---------------------------------------------------------------- addReport

  /** `addReport` appends the report unchanged and grows the list by one. */
  lemma AppendedShape(reports: seq<Report>, r: Report)
    ensures |Appended(reports, r)| == |reports| + 1
    ensures Appended(reports, r)[|reports|] == r
    ensures Appended(reports, r)[..|reports|] == reports
  {
  }

  /** After adding a report whose id is new, `getReport` of that id returns
      it, and every other id finds what it found before. */
  lemma FindAfterAppend(reports: seq<Report>, r: Report, id: string)
    requires Find(reports, r.id).None?
    ensures Find(Appended(reports, r), r.id) == Some(r)
    ensures id != r.id ==> Find(Appended(reports, r), id) == Find(reports, id)
  {
    FindConcat(reports, [r], r.id);
    FindConcat(reports, [r], id);
  }

  /** `addReport` does not check ids: a second report with an id already
      present is stored, but `getReport` keeps returning the first one. */
  lemma DuplicateIsShadowed(reports: seq<Report>, r: Report)
    requires Find(reports, r.id).Some?
    ensures |Appended(reports, r)| == |reports| + 1
    ensures Find(Appended(reports, r), r.id) == Find(reports, r.id)
  {
    FindConcat(reports, [r], r.id);
  }

  // ---------------------------------------------------------------- updateReport

  /** `updateReport` keeps length and order, leaves each report with another
      id as it was and overlays the partial record on each report with the
      id. */
  lemma UpdatedAt(reports: seq<Report>, id: string, p: Patch)
    ensures |Updated(reports, id, p)| == |reports|
    ensures forall k :: 0 <= k < |reports| && reports[k].id != id ==> Updated(reports, id, p)[k] == reports[k]
    ensures forall k :: 0 <= k < |reports| && reports[k].id == id ==>
              Updated(reports, id, p)[k] == Overlay(reports[k], p)
  {
  }

  /** Updating an id that no report has changes nothing. */
  lemma UpdateAbsentIsNoop(reports: seq<Report>, id: string, p: Patch)
    requires Find(reports, id).None?
    ensures Updated(reports, id, p) == reports
  {
  }

  /** After `updateReport(id, p)` with a partial record that keeps the id,
      `getReport(id)` returns the report it returned before with every key
      of `p` applied. */
  lemma {:induction false} FindAfterUpdate(reports: seq<Report>, id: string, p: Patch)
    requires p.id.None? || p.id == Some(id)
    ensures Find(Updated(reports, id, p), id) ==
              if Find(reports, id).Some? then Some(Overlay(Find(reports, id).value, p)) else None
  {
    if reports != [] {
      var u := Updated(reports, id, p);
      assert u[1..] == Updated(reports[1..], id, p);
      FindAfterUpdate(reports[1..], id, p);
    }
  }

  /** Every key that the partial record carries is visible through
      `getReport` after the update. */
  lemma UpdateIsVisible(reports: seq<Report>, id: string, p: Patch)
    requires Find(reports, id).Some?
    requires p.id.None? || p.id == Some(id)
    ensures Find(Updated(reports, id, p), id).Some?
    ensures var r := Find(Updated(reports, id, p), id).value;
            (p.reportNumber.Some? ==> r.reportNumber == p.reportNumber.value) &&
            (p.status.Some? ==> r.status == p.status.value) &&
            (p.policeAbstractUri.Some? ==> r.policeAbstractUri == p.policeAbstractUri.value) &&
            (p.policeAbstractDate.Some? ==> r.policeAbstractDate == p.policeAbstractDate.value)
  {
    FindAfterUpdate(reports, id, p);
  }

  /** The store: the list that `addReport` and `updateReport` replace. */
  class Store {
    var reports: seq<Report>

    constructor ()
      ensures reports == []
    {
      reports := [];
    }

    /** `addReport(report)`. */
    method AddReport(r: Report)
      modifies this
      ensures reports == Appended(old(reports), r)
      ensures Find(old(reports), r.id).None? ==> Find(reports, r.id) == Some(r)
    {
      if Find(reports, r.id).None? {
        FindAfterAppend(reports, r, r.id);
      }
      reports := Appended(reports, r);
    }

    /** `updateReport(id, updates)`; the returned promise is not modelled. */
    method UpdateReport(id: string, p: Patch)
      modifies this
      ensures reports == Updated(old(reports), id, p)
      ensures |reports| == |old(reports)|
      ensures Find(old(reports), id).None? ==> reports == old(reports)
    {
      reports := Updated(reports, id, p);
    }

    /** `getReport(id)`: reads the list and never changes it. */
    function GetReport(id: string): (found: Option<Report>)
      reads this
      ensures found.Some? ==> found.value in reports && found.value.id == id
      ensures found.Some? ==> exists k :: FirstWithId(reports, id, k) && reports[k] == found.value
      ensures found.None? ==> forall k :: 0 <= k < |reports| ==> reports[k].id != id
    {
      Find(reports, id)
    }
  }
}
