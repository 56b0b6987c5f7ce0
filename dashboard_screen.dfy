/** What the dashboard computes from the store: the three counters (total,
    pending, completed), the five most recent reports by numeric id, and the
    "n vehicle(s) involved" label of a report card. */
module DashboardScreen {
  import opened Common
  import opened Text
  import opened ReportTypes
  import opened ReportStore
  import opened ReportsListScreen

  /** The values behind the three stat cards. */
  datatype Stats = Stats(total: nat, pending: nat, completed: nat)

  /** `stats`: all reports, those with status 'pending', those with status
      'complete'. */
  function ReportStats(reports: seq<Report>): (s: Stats)
    ensures s.total == |reports|
    ensures s.pending + s.completed == s.total
  {
    CountSplit(reports, (r: Report) => r.status == Pending, (r: Report) => r.status == Complete);
    Stats(|reports|,
          Count(reports, (r: Report) => r.status == Pending),
          Count(reports, (r: Report) => r.status == Complete))
  }

  /** An empty store shows zero on every card. */
  lemma StatsOfEmpty()
    ensures ReportStats([]) == Stats(0, 0, 0)
  {
  }

  /** Adding a report of any status raises Total by one, raises Pending by
      one exactly when it is 'pending' and Completed by one exactly when it
      is 'complete'; with `StatsOfEmpty` this fixes Pending and Completed as
      the number of 'pending' and 'complete' reports. */
  lemma StatsStep(reports: seq<Report>, r: Report)
    ensures ReportStats(Appended(reports, r)).total == ReportStats(reports).total + 1
    ensures ReportStats(Appended(reports, r)).pending ==
            ReportStats(reports).pending + (if r.status == Pending then 1 else 0)
    ensures ReportStats(Appended(reports, r)).completed ==
            ReportStats(reports).completed + (if r.status == Complete then 1 else 0)
  {
    CountConcat(reports, [r], (x: Report) => x.status == Pending);
    CountConcat(reports, [r], (x: Report) => x.status == Complete);
  }

  /** A new report is pending, so adding one raises Total and Pending by one
      and leaves Completed alone. */
  lemma StatsAfterAdd(reports: seq<Report>, r: Report)
    requires r.status == Pending
    ensures ReportStats(Appended(reports, r)).total == ReportStats(reports).total + 1
    ensures ReportStats(Appended(reports, r)).pending == ReportStats(reports).pending + 1
    ensures ReportStats(Appended(reports, r)).completed == ReportStats(reports).completed
  {
    CountConcat(reports, [r], (x: Report) => x.status == Pending);
    CountConcat(reports, [r], (x: Report) => x.status == Complete);
  }

  /** How many recent reports the dashboard shows. */
  const RecentCount := 5

  /** `reports.slice().sort(...).slice(0, 5)`. */
  function RecentReports(reports: seq<Report>): (r: seq<Report>)
    ensures |r| == if |reports| < RecentCount then |reports| else RecentCount
    ensures SortedByIdDesc(r)
    ensures multiset(r) <= multiset(reports)
    ensures forall x :: x in multiset(reports) - multiset(r) ==>
              forall k :: 0 <= k < |r| ==> IdKey(x) <= IdKey(r[k])
  {
    var sorted := SortByIdDesc(reports);
    var n := if |sorted| < RecentCount then |sorted| else RecentCount;
    SortedPrefix(sorted, n);
    sorted[..n]
  }

  /** A prefix of a sorted list is sorted, and nothing after it has a larger
      id than anything in it. */
  lemma SortedPrefix(sorted: seq<Report>, n: nat)
    requires SortedByIdDesc(sorted) && n <= |sorted|
    ensures SortedByIdDesc(sorted[..n])
    ensures multiset(sorted[..n]) <= multiset(sorted)
    ensures forall x :: x in multiset(sorted) - multiset(sorted[..n]) ==>
              forall k :: 0 <= k < n ==> IdKey(x) <= IdKey(sorted[k])
  {
    var r := sorted[..n];
    assert sorted == r + sorted[n..];
    forall x | x in multiset(sorted) - multiset(r)
      ensures forall k :: 0 <= k < n ==> IdKey(x) <= IdKey(sorted[k])
    {
      assert x in multiset(sorted[n..]);
      var j :| 0 <= j < |sorted[n..]| && sorted[n..][j] == x;
      assert sorted[n + j] == x;
    }
  }

  /** The card's "n vehicle(s) involved" text: plural exactly when there is
      more than one vehicle. */
  function VehicleLabel(count: nat): (text: string)
    ensures |NatToString(count)| < |text| && DecimalValue(text[..|NatToString(count)|]) == count
    ensures |text| >= 9 && text[|text| - 9..] == " involved"
    ensures text[|NatToString(count)|..] ==
            if count > 1 then " vehicles involved" else " vehicle involved"
  {
    var digits := NatToString(count);
    var text := digits + " vehicle" + (if count > 1 then "s" else "") + " involved";
    assert text[..|digits|] == digits;
    assert text[|digits|..] == " vehicle" + (if count > 1 then "s" else "") + " involved";
    DecimalRoundTrip(count);
    text
  }

  /** No vehicles reads "0 vehicle involved", one reads "1 vehicle involved". */
  lemma VehicleLabelSingular()
    ensures VehicleLabel(0) == "0 vehicle involved"
    ensures VehicleLabel(1) == "1 vehicle involved"
  {
  }

  /** The word carries the plural 's' exactly when the count is above one. */
  lemma VehicleLabelPlural(count: nat)
    ensures Includes(VehicleLabel(count), "vehicles") <==> count > 1
  {
    var digits := NatToString(count);
    var text := VehicleLabel(count);
    if count > 1 {
      assert OccursAt(text, "vehicles", |digits| + 1) by {
        assert text == digits + " " + "vehicles" + " involved";
        assert text[|digits| + 1..|digits| + 9] == "vehicles";
      }
    } else {
      assert text == digits + " vehicle involved";
      assert text[|digits|..] == " vehicle involved";
      assert forall k :: 0 <= k < |text| ==> text[k] != 's' by {
        forall k | 0 <= k < |text|
          ensures text[k] != 's'
        {
          if k < |digits| {
            assert text[k] == digits[k];
          } else {
            assert text[k] == text[|digits|..][k - |digits|];
          }
        }
      }
      forall i | 0 <= i && i + 8 <= |text|
        ensures !OccursAt(text, "vehicles", i)
      {
        assert text[i..i + 8][7] == text[i + 7];
      }
    }
  }
}
