/** The report store of `store/reportsStore.ts`: an in-memory list of
    reports with numeric ids. `addReport` numbers the new report one past
    the largest id and puts it first, `updateReport` spreads a partial
    record over the reports with a given id, `deleteReport` filters them
    out. Each action replaces the store's `reports` list; the new list is a
    function of the old one. */
module ReportsStore {
  import opened Common
  import opened ReportTypes

  /** The police abstract attached to a report. */
  datatype PoliceAbstract = PoliceAbstract(
    abstractNumber: string, officerName: string, submissionDate: string, details: string)

  /** A report as the report details screen declares it. */
  datatype Report = Report(
    id: int, title: string, location: string, date: string, time: string,
    status: Status, description: string, vehicles: seq<Vehicle>,
    evidence: seq<Evidence>, policeAbstract: Option<PoliceAbstract>)

  /** `Omit<Report, 'id'>`: what `addReport` is given. */
  datatype Draft = Draft(
    title: string, location: string, date: string, time: string,
    status: Status, description: string, vehicles: seq<Vehicle>,
    evidence: seq<Evidence>, policeAbstract: Option<PoliceAbstract>)

  /** `Partial<Report>`: `Some` for each key the partial record carries. For
      the optional `policeAbstract`, `Some(None)` is the key present with the
      value `undefined`. */
  datatype Patch = Patch(
    id: Option<int>, title: Option<string>, location: Option<string>,
    date: Option<string>, time: Option<string>, status: Option<Status>,
    description: Option<string>, vehicles: Option<seq<Vehicle>>,
    evidence: Option<seq<Evidence>>, policeAbstract: Option<Option<PoliceAbstract>>)

  /** The partial record with no keys. */
  const EmptyPatch := Patch(None, None, None, None, None, None, None, None, None, None)

  /** `{ ...report, id }`. */
  function WithId(d: Draft, id: int): Report
  {
    Report(id, d.title, d.location, d.date, d.time, d.status, d.description,
           d.vehicles, d.evidence, d.policeAbstract)
  }

  /** The value of one key after a spread: the patch's if it has the key. */
  function Pick<T>(patched: Option<T>, current: T): T
  {
    if patched.Some? then patched.value else current
  }

  /** `{ ...r, ...p }`. */
  function Overlay(r: Report, p: Patch): Report
  {
    Report(Pick(p.id, r.id), Pick(p.title, r.title), Pick(p.location, r.location),
           Pick(p.date, r.date), Pick(p.time, r.time), Pick(p.status, r.status),
           Pick(p.description, r.description), Pick(p.vehicles, r.vehicles),
           Pick(p.evidence, r.evidence), Pick(p.policeAbstract, r.policeAbstract))
  }

  /** `{ ...p, ...q }`: the later partial record wins on shared keys. */
  function Merge(p: Patch, q: Patch): Patch
  {
    Patch(if q.id.Some? then q.id else p.id,
          if q.title.Some? then q.title else p.title,
          if q.location.Some? then q.location else p.location,
          if q.date.Some? then q.date else p.date,
          if q.time.Some? then q.time else p.time,
          if q.status.Some? then q.status else p.status,
          if q.description.Some? then q.description else p.description,
          if q.vehicles.Some? then q.vehicles else p.vehicles,
          if q.evidence.Some? then q.evidence else p.evidence,
          if q.policeAbstract.Some? then q.policeAbstract else p.policeAbstract)
  }

  /** `Math.max(...reports.map(r => r.id))`. */
  function MaxId(reports: seq<Report>): (m: int)
    requires reports != []
    ensures forall k :: 0 <= k < |reports| ==> reports[k].id <= m
    ensures exists k :: 0 <= k < |reports| && reports[k].id == m
  {
    if |reports| == 1 then reports[0].id
    else
      var rest := MaxId(reports[1..]);
      if reports[0].id >= rest then reports[0].id else rest
  }

  /** The id `addReport` gives the new report. */
  function NextId(reports: seq<Report>): (id: int)
  {
    if |reports| > 0 then MaxId(reports) + 1 else 1
  }

  /** The list after `addReport(d)`. */
  function Added(reports: seq<Report>, d: Draft): seq<Report>
  {
    [WithId(d, NextId(reports))] + reports
  }

  /** The list after `updateReport(id, p)`. */
  function Updated(reports: seq<Report>, id: int, p: Patch): seq<Report>
  {
    seq(|reports|, k requires 0 <= k < |reports| =>
      if reports[k].id == id then Overlay(reports[k], p) else reports[k])
  }

  /** The list after `deleteReport(id)`. */
  function Deleted(reports: seq<Report>, id: int): seq<Report>
  {
    Filter(reports, (r: Report) => r.id != id)
  }

  /** No two reports share an id. */
  predicate DistinctIds(reports: seq<Report>)
  {
    forall i, j :: 0 <= i < j < |reports| ==> reports[i].id != reports[j].id
  }

  /** No report has the id. */
  predicate Absent(reports: seq<Report>, id: int)
  {
    forall k :: 0 <= k < |reports| ==> reports[k].id != id
  }

  // ---------------------------------------------------------------- addReport

  /** The new id is 1 for an empty list and otherwise one more than the
      largest id present; in both cases it exceeds every id present. */
  lemma NextIdIsFresh(reports: seq<Report>)
    ensures reports == [] ==> NextId(reports) == 1
    ensures reports != [] ==> exists k :: 0 <= k < |reports| && reports[k].id == NextId(reports) - 1
    ensures forall k :: 0 <= k < |reports| ==> reports[k].id < NextId(reports)
  {
    if reports != [] {
      var k :| 0 <= k < |reports| && reports[k].id == MaxId(reports);
      assert reports[k].id == NextId(reports) - 1;
    }
  }

  /** `addReport` puts the new report first, with the fresh id and the
      draft's fields, and keeps the old reports after it in their order. */
  lemma AddedShape(reports: seq<Report>, d: Draft)
    ensures |Added(reports, d)| == |reports| + 1
    ensures Added(reports, d)[0] == WithId(d, NextId(reports))
    ensures Added(reports, d)[1..] == reports
    ensures forall k :: 1 <= k < |Added(reports, d)| ==> Added(reports, d)[k].id < Added(reports, d)[0].id
  {
  }

  /** Distinct ids stay distinct after `addReport`. */
  lemma AddKeepsIdsDistinct(reports: seq<Report>, d: Draft)
    requires DistinctIds(reports)
    ensures DistinctIds(Added(reports, d))
  {
    NextIdIsFresh(reports);
  }

  /** Deleting the id `addReport` just gave out restores the list: the new
      report is the only one with that id. */
  lemma DeleteUndoesAdd(reports: seq<Report>, d: Draft)
    ensures Deleted(Added(reports, d), NextId(reports)) == reports
  {
    var id := NextId(reports);
    var keep := (r: Report) => r.id != id;
    NextIdIsFresh(reports);
    FilterConcat([WithId(d, id)], reports, keep);
    assert Added(reports, d) == [WithId(d, id)] + reports;
    FilterKeepsAll(reports, keep);
  }

  // ---------------------------------------------------------------- updateReport

  /** A key of the partial record replaces that field; every other field
      keeps its value. */
  lemma OverlayFields(r: Report, p: Patch)
    ensures Overlay(r, p).id == (if p.id.Some? then p.id.value else r.id)
    ensures Overlay(r, p).title == (if p.title.Some? then p.title.value else r.title)
    ensures Overlay(r, p).location == (if p.location.Some? then p.location.value else r.location)
    ensures Overlay(r, p).date == (if p.date.Some? then p.date.value else r.date)
    ensures Overlay(r, p).time == (if p.time.Some? then p.time.value else r.time)
    ensures Overlay(r, p).status == (if p.status.Some? then p.status.value else r.status)
    ensures Overlay(r, p).description == (if p.description.Some? then p.description.value else r.description)
    ensures Overlay(r, p).vehicles == (if p.vehicles.Some? then p.vehicles.value else r.vehicles)
    ensures Overlay(r, p).evidence == (if p.evidence.Some? then p.evidence.value else r.evidence)
    ensures Overlay(r, p).policeAbstract ==
              (if p.policeAbstract.Some? then p.policeAbstract.value else r.policeAbstract)
  {
  }

  /** Spreading an empty partial record changes nothing, spreading the same
      one twice is spreading it once, and two spreads in a row are one spread
      of the merged partial record. */
  lemma OverlayLaws(r: Report, p: Patch, q: Patch)
    ensures Overlay(r, EmptyPatch) == r
    ensures Overlay(Overlay(r, p), p) == Overlay(r, p)
    ensures Overlay(Overlay(r, p), q) == Overlay(r, Merge(p, q))
  {
  }

  /** `updateReport` keeps the length and the order; a report whose id
      differs is unchanged and a report with the id gets the overlay. */
  lemma UpdatedAt(reports: seq<Report>, id: int, p: Patch)
    ensures |Updated(reports, id, p)| == |reports|
    ensures forall k :: 0 <= k < |reports| && reports[k].id != id ==> Updated(reports, id, p)[k] == reports[k]
    ensures forall k :: 0 <= k < |reports| && reports[k].id == id ==>
              Updated(reports, id, p)[k] == Overlay(reports[k], p)
  {
  }

  /** Updating an id that is not present leaves the list as it was. */
  lemma UpdateAbsentIsNoop(reports: seq<Report>, id: int, p: Patch)
    requires Absent(reports, id)
    ensures Updated(reports, id, p) == reports
  {
  }

  /** A partial record without an id cannot make two ids collide. */
  lemma UpdateKeepsIdsDistinct(reports: seq<Report>, id: int, p: Patch)
    requires DistinctIds(reports)
    requires p.id.None?
    ensures DistinctIds(Updated(reports, id, p))
  {
  }

  // ---------------------------------------------------------------- deleteReport

  /** `deleteReport` leaves no report with the id, keeps every other report,
      and removes exactly as many reports as carried the id. */
  lemma DeletedContents(reports: seq<Report>, id: int)
    ensures forall k :: 0 <= k < |Deleted(reports, id)| ==> Deleted(reports, id)[k].id != id
    ensures forall k :: 0 <= k < |reports| && reports[k].id != id ==> reports[k] in Deleted(reports, id)
    ensures |Deleted(reports, id)| + Count(reports, (r: Report) => r.id == id) == |reports|
  {
    CountSplit(reports, (r: Report) => r.id == id, (r: Report) => r.id != id);
  }

  /** The kept reports stay in their relative order: deleting from a
      concatenation deletes from each part. */
  lemma DeleteKeepsOrder(a: seq<Report>, b: seq<Report>, id: int)
    ensures Deleted(a + b, id) == Deleted(a, id) + Deleted(b, id)
  {
    FilterConcat(a, b, (r: Report) => r.id != id);
  }

  /** Deleting an id that is not present is a no-op, and deleting twice is
      deleting once. */
  lemma DeleteAbsentIsNoop(reports: seq<Report>, id: int)
    ensures Absent(reports, id) ==> Deleted(reports, id) == reports
    ensures Deleted(Deleted(reports, id), id) == Deleted(reports, id)
  {
    FilterKeepsAll(Deleted(reports, id), (r: Report) => r.id != id);
    if Absent(reports, id) {
      FilterKeepsAll(reports, (r: Report) => r.id != id);
    }
  }

  /** Deleting keeps distinct ids distinct. */
  lemma {:induction false} DeleteKeepsIdsDistinct(reports: seq<Report>, id: int)
    requires DistinctIds(reports)
    ensures DistinctIds(Deleted(reports, id))
  {
    if reports != [] {
      DeleteKeepsIdsDistinct(reports[1..], id);
      assert reports == [reports[0]] + reports[1..];
      DeleteKeepsOrder([reports[0]], reports[1..], id);
      var rest := Deleted(reports[1..], id);
      forall k | 0 <= k < |rest|
        ensures rest[k].id != reports[0].id
      {
        var j :| 0 <= j < |reports[1..]| && reports[1..][j] == rest[k];
        assert reports[j + 1] == rest[k];
      }
    }
  }

  /** The store: the list that every action replaces. */
  class Store {
    var reports: seq<Report>

    constructor ()
      ensures reports == []
    {
      reports := [];
    }

    /** `addReport(d)`. */
    method AddReport(d: Draft)
      modifies this
      ensures reports == Added(old(reports), d)
      ensures reports[0].id == NextId(old(reports))
      ensures forall k :: 1 <= k < |reports| ==> reports[k].id < reports[0].id
      ensures DistinctIds(old(reports)) ==> DistinctIds(reports)
    {
      if DistinctIds(reports) {
        AddKeepsIdsDistinct(reports, d);
      }
      NextIdIsFresh(reports);
      reports := Added(reports, d);
    }

    /** `updateReport(id, p)`. */
    method UpdateReport(id: int, p: Patch)
      modifies this
      ensures reports == Updated(old(reports), id, p)
      ensures |reports| == |old(reports)|
      ensures Absent(old(reports), id) ==> reports == old(reports)
    {
      reports := Updated(reports, id, p);
    }

    /** `deleteReport(id)`. */
    method DeleteReport(id: int)
      modifies this
      ensures reports == Deleted(old(reports), id)
      ensures Absent(reports, id)
      ensures Absent(old(reports), id) ==> reports == old(reports)
    {
      DeleteAbsentIsNoop(reports, id);
      reports := Deleted(reports, id);
    }
  }
}
