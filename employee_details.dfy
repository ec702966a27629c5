/** The employee details page: the per-date hours chart and the guard in
    front of its export.  The `'MMM dd'` label of a `yyyy-MM-dd` date is
    the parameter `formatDate`. */
module EmployeeDetails {
  import opened Seqs
  import opened UserTypes
  import opened AttendanceTypes
  import opened Export

  datatype ChartPoint = ChartPoint(date: string, hours: int)

  /** `if (record.totalHours)`: only records with a non-zero total are drawn. */
  predicate HasHours(r: AttendanceRecord) {
    r.totalHours.Some? && r.totalHours.value != 0
  }

  /** The labels of the drawn records, one per record, in record order. */
  function DrawnLabels(records: seq<AttendanceRecord>, formatDate: string -> string): (r: seq<string>)
    ensures |r| <= |records|
  {
    if records == [] then []
    else
      var init := DrawnLabels(DropLast(records), formatDate);
      if HasHours(Last(records)) then init + [formatDate(Last(records).date)] else init
  }

  /** The chart's labels: each drawn label once, in order of first appearance,
      which is the key order of the date map. */
  function ChartLabels(records: seq<AttendanceRecord>, formatDate: string -> string): (r: seq<string>)
    ensures forall k :: k in r <==> k in DrawnLabels(records, formatDate)
    ensures NoDuplicates(r)
    ensures |r| <= |records|
  {
    DedupNoDuplicates(DrawnLabels(records, formatDate));
    Dedup(DrawnLabels(records, formatDate))
  }

  /** The hours of the LAST drawn record with the label, if any: there are
      some exactly when the label is drawn, and they are never zero. */
  function LatestHours(records: seq<AttendanceRecord>, formatDate: string -> string, key: string): (r: Option<int>)
    ensures r.Some? ==> r.value != 0
  {
    if records == [] then None
    else if HasHours(Last(records)) && formatDate(Last(records).date) == key then Some(Last(records).totalHours.value)
    else LatestHours(DropLast(records), formatDate, key)
  }

  /** What `dateMap` holds after the records `seen`. */
  ghost predicate DateMap(seen: seq<AttendanceRecord>, formatDate: string -> string,
                          labels: seq<string>, dateMap: map<string, int>) {
    labels == ChartLabels(seen, formatDate) &&
    (forall k :: k in dateMap <==> k in labels) &&
    (forall k :: k in labels ==> LatestHours(seen, formatDate, k) == Some(dateMap[k]))
  }

  lemma DrawnStep(seen: seq<AttendanceRecord>, formatDate: string -> string, r: AttendanceRecord)
    ensures DrawnLabels(seen + [r], formatDate) ==
            DrawnLabels(seen, formatDate) + (if HasHours(r) then [formatDate(r.date)] else [])
  {
    assert DropLast(seen + [r]) == seen;
  }

  lemma LatestStep(seen: seq<AttendanceRecord>, formatDate: string -> string, r: AttendanceRecord, k: string)
    ensures LatestHours(seen + [r], formatDate, k) ==
            if HasHours(r) && formatDate(r.date) == k then Some(r.totalHours.value) else LatestHours(seen, formatDate, k)
  {
    assert DropLast(seen + [r]) == seen;
  }

  /** One drawn record sets its label's entry and adds the label if new. */
  lemma DateMapStep(seen: seq<AttendanceRecord>, formatDate: string -> string, r: AttendanceRecord,
                    labels: seq<string>, dateMap: map<string, int>)
    requires DateMap(seen, formatDate, labels, dateMap)
    requires HasHours(r)
    ensures var key := formatDate(r.date);
            DateMap(seen + [r], formatDate, if key in dateMap then labels else labels + [key],
                    dateMap[key := r.totalHours.value])
  {
    var key := formatDate(r.date);
    DrawnStep(seen, formatDate, r);
    DedupAppend(DrawnLabels(seen, formatDate), key);
    forall k | k in labels || k == key
      ensures LatestHours(seen + [r], formatDate, k) == Some(dateMap[key := r.totalHours.value][k])
    {
      LatestStep(seen, formatDate, r, k);
    }
  }

  /** A record without hours changes nothing. */
  lemma DateMapSkip(seen: seq<AttendanceRecord>, formatDate: string -> string, r: AttendanceRecord,
                    labels: seq<string>, dateMap: map<string, int>)
    requires DateMap(seen, formatDate, labels, dateMap)
    requires !HasHours(r)
    ensures DateMap(seen + [r], formatDate, labels, dateMap)
  {
    DrawnStep(seen, formatDate, r);
    forall k | k in labels
      ensures LatestHours(seen + [r], formatDate, k) == Some(dateMap[k])
    {
      LatestStep(seen, formatDate, r, k);
    }
  }

  /** The body of the `forEach` of `getChartData`. */
  method AddToChart(ghost seen: seq<AttendanceRecord>, formatDate: string -> string, record: AttendanceRecord,
                    labels: seq<string>, dateMap: map<string, int>)
    returns (labels': seq<string>, dateMap': map<string, int>)
    requires DateMap(seen, formatDate, labels, dateMap)
    ensures DateMap(seen + [record], formatDate, labels', dateMap')
  {
    labels', dateMap' := labels, dateMap;
    if record.totalHours.Some? && record.totalHours.value != 0 {
      var formattedDate := formatDate(record.date);
      DateMapStep(seen, formatDate, record, labels, dateMap);
      if formattedDate !in dateMap' {
        labels' := labels' + [formattedDate];
      }
      dateMap' := dateMap'[formattedDate := record.totalHours.value];
    } else {
      DateMapSkip(seen, formatDate, record, labels, dateMap);
    }
  }

  /** The `forEach` of `getChartData`: the date map after every record, with
      its keys in insertion order. */
  method FillDateMap(records: seq<AttendanceRecord>, formatDate: string -> string)
    returns (labels: seq<string>, dateMap: map<string, int>)
    ensures DateMap(records, formatDate, labels, dateMap)
  {
    labels, dateMap := [], map[];
    for k := 0 to |records|
      invariant DateMap(records[..k], formatDate, labels, dateMap)
    {
      assert records[..k + 1] == records[..k] + [records[k]];
      labels, dateMap := AddToChart(records[..k], formatDate, records[k], labels, dateMap);
    }
    assert records[..|records|] == records;
  }

  /** `getChartData`: fills a map from label to hours record by record,
      overwriting, then lists it in insertion order. */
  method ChartData(records: seq<AttendanceRecord>, formatDate: string -> string) returns (points: seq<ChartPoint>)
    ensures |points| == |ChartLabels(records, formatDate)| <= |records|
    ensures forall i :: 0 <= i < |points| ==>
              points[i].date == ChartLabels(records, formatDate)[i] &&
              LatestHours(records, formatDate, points[i].date) == Some(points[i].hours)
  {
    var labels, dateMap := FillDateMap(records, formatDate);
    points := [];
    for i := 0 to |labels|
      invariant |points| == i
      invariant forall j :: 0 <= j < i ==> points[j] == ChartPoint(labels[j], dateMap[labels[j]])
    {
      points := points + [ChartPoint(labels[i], dateMap[labels[i]])];
    }
  }

  /** The chart's labels are exactly the labels of the drawn records. */
  lemma {:induction false} ChartLabelsDrawn(records: seq<AttendanceRecord>, formatDate: string -> string, k: string)
    ensures k in ChartLabels(records, formatDate) <==>
            exists i :: 0 <= i < |records| && HasHours(records[i]) && formatDate(records[i].date) == k
    decreases |records|
  {
    if records != [] {
      var init := DropLast(records);
      ChartLabelsDrawn(init, formatDate, k);
      assert forall i :: 0 <= i < |init| ==> init[i] == records[i];
      if k in ChartLabels(init, formatDate) {
        var i :| 0 <= i < |init| && HasHours(init[i]) && formatDate(init[i].date) == k;
        assert records[i] == init[i];
      }
    }
  }

  /** The hours shown for a label are those of its last drawn record: the
      entry is overwritten, never summed, and never zero. */
  lemma {:induction false} LatestHoursIsLast(records: seq<AttendanceRecord>, formatDate: string -> string, k: string)
    ensures LatestHours(records, formatDate, k).Some? ==>
              exists i :: 0 <= i < |records| && HasHours(records[i]) && formatDate(records[i].date) == k &&
                          records[i].totalHours == LatestHours(records, formatDate, k) &&
                          forall j :: i < j < |records| ==> !(HasHours(records[j]) && formatDate(records[j].date) == k)
    ensures LatestHours(records, formatDate, k).None? <==>
              forall i :: 0 <= i < |records| ==> !(HasHours(records[i]) && formatDate(records[i].date) == k)
    decreases |records|
  {
    if records != [] {
      var init := DropLast(records);
      LatestHoursIsLast(init, formatDate, k);
      assert forall i :: 0 <= i < |init| ==> init[i] == records[i];
      var n := |records| - 1;
      assert Last(records) == records[n];
      if HasHours(records[n]) && formatDate(records[n].date) == k {
        assert records[n].totalHours == LatestHours(records, formatDate, k);
      } else if LatestHours(init, formatDate, k).Some? {
        var i :| 0 <= i < |init| && HasHours(init[i]) && formatDate(init[i].date) == k &&
                 init[i].totalHours == LatestHours(init, formatDate, k) &&
                 forall j :: i < j < |init| ==> !(HasHours(init[j]) && formatDate(init[j].date) == k);
        assert records[i] == init[i] && records[i].totalHours == LatestHours(records, formatDate, k);
      }
    }
  }

  /** `handleExport`: nothing to export without an employee or without
      records; otherwise the rows of the records, looked up against that
      employee alone. */
  function ExportData(employee: Option<User>, records: seq<AttendanceRecord>): (r: Option<seq<ExportRow>>)
    ensures r.None? <==> employee.None? || records == []
    ensures r.Some? ==> r.value == PrepareAttendanceForExport(records, [employee.value])
    ensures r.Some? ==> |r.value| == |records|
  {
    if employee.None? || |records| == 0 then None
    else Some(PrepareAttendanceForExport(records, [employee.value]))
  }

  /** The page exports the employee's own history, so every row carries the
      employee's name. */
  lemma ExportNamesEmployee(employee: User, records: seq<AttendanceRecord>)
    requires records != []
    requires forall i :: 0 <= i < |records| ==> records[i].userId == employee.id
    ensures forall i :: 0 <= i < |records| ==>
              ExportData(Some(employee), records).value[i].employeeName == employee.firstName + " " + employee.lastName
  {
    forall i | 0 <= i < |records|
      ensures ExportData(Some(employee), records).value[i].employeeName == employee.firstName + " " + employee.lastName
    {
      assert UserService.FindUser([employee], records[i].userId) == Some(employee) by {
        UserService.FindUserUnique([employee], employee);
      }
    }
  }
}
