/** The spreadsheet rows of an attendance export, one per record.  The two
    clock columns hold the time itself; printing it with the locale's time
    format is not part of this model. */
module Export {
  import opened Seqs
  import opened Text
  import opened UserTypes
  import opened AttendanceTypes
  import opened UserService

  /** A clock column: the moment, or 'N/A'. */
  datatype ClockCell = Time(ms: int) | ClockNotAvailable

  /** The 'Hours Worked' column: the hours in hundredths, or 'N/A'. */
  datatype HoursCell = Hours(hundredths: int) | HoursNotAvailable

  datatype ExportRow = ExportRow(
    date: string,
    employeeName: string,
    department: string,
    clockIn: ClockCell,
    clockOut: ClockCell,
    hoursWorked: HoursCell,
    status: string,
    notes: string)

  /** `user ? first + ' ' + last : 'Unknown'`: the name of the record's
      user, or 'Unknown' when no user has that id. */
  function ExportName(users: seq<User>, userId: string): (n: string)
    ensures FindUser(users, userId).None? <==> n == "Unknown" && forall u :: u in users ==> u.id != userId
    ensures FindUser(users, userId).Some? ==>
              n == FindUser(users, userId).value.firstName + " " + FindUser(users, userId).value.lastName
  {
    match FindUser(users, userId)
    case Some(u) => u.firstName + " " + u.lastName
    case None => "Unknown"
  }

  /** `user?.department || 'Unknown'`: an empty department also reads
      'Unknown'. */
  function ExportDepartment(users: seq<User>, userId: string): (d: string)
    ensures d == "Unknown" <==>
              FindUser(users, userId).None? || FindUser(users, userId).value.department in {"", "Unknown"}
    ensures FindUser(users, userId).Some? && FindUser(users, userId).value.department != "" ==>
              d == FindUser(users, userId).value.department
  {
    match FindUser(users, userId)
    case Some(u) => if u.department != "" then u.department else "Unknown"
    case None => "Unknown"
  }

  /** `record.totalHours || 'N/A'`: null and zero both read 'N/A'. */
  function ExportHours(r: AttendanceRecord): (h: HoursCell)
    ensures h.HoursNotAvailable? <==> r.totalHours.None? || r.totalHours.value == 0
    ensures h.Hours? ==> Some(h.hundredths) == r.totalHours && h.hundredths != 0
  {
    if r.totalHours.Some? && r.totalHours.value != 0 then Hours(r.totalHours.value) else HoursNotAvailable
  }

  /** `status.replace('_', ' ').toUpperCase()`. */
  function ExportStatus(s: AttendanceStatus): (t: string)
    ensures |t| == |StatusName(s)|
  {
    Upper(ReplaceFirst(StatusName(s), '_', ' '))
  }

  /** The four statuses as the export spells them. */
  lemma ExportStatusNames()
    ensures ExportStatus(ClockedIn) == "CLOCKED IN"
    ensures ExportStatus(ClockedOut) == "CLOCKED OUT"
    ensures ExportStatus(Break) == "BREAK"
    ensures ExportStatus(Pending) == "PENDING"
  {
    ExportClockedIn();
    ExportClockedOut();
    ExportBreak();
    ExportPending();
  }

  lemma ExportClockedIn()
    ensures ExportStatus(ClockedIn) == "CLOCKED IN"
  {
    UnderscoreReplaced();
    UpperSpelling();
    assert ExportStatus(ClockedIn) == Upper(ReplaceFirst("clocked_in", '_', ' '));
  }

  lemma ExportClockedOut()
    ensures ExportStatus(ClockedOut) == "CLOCKED OUT"
  {
    UnderscoreReplaced();
    UpperSpelling();
    assert ExportStatus(ClockedOut) == Upper(ReplaceFirst("clocked_out", '_', ' '));
  }

  lemma UnderscoreReplaced()
    ensures ReplaceFirst("clocked_in", '_', ' ') == "clocked in"
    ensures ReplaceFirst("clocked_out", '_', ' ') == "clocked out"
  {
    ReplacedIn();
    ReplacedOut();
  }

  lemma ReplacedIn()
    ensures ReplaceFirst("clocked_in", '_', ' ') == "clocked in"
  {
    assert "clocked_in" == "clocked" + ['_'] + "in";
    ReplaceFirstSplit("clocked", '_', ' ', "in");
    assert "clocked" + [' '] + "in" == "clocked in";
  }

  lemma ReplacedOut()
    ensures ReplaceFirst("clocked_out", '_', ' ') == "clocked out"
  {
    assert "clocked_out" == "clocked" + ['_'] + "out";
    ReplaceFirstSplit("clocked", '_', ' ', "out");
    assert "clocked" + [' '] + "out" == "clocked out";
  }

  lemma UpperSpelling()
    ensures Upper("clocked in") == "CLOCKED IN"
    ensures Upper("clocked out") == "CLOCKED OUT"
  {
    UpperPointwise("clocked in", "CLOCKED IN");
    UpperPointwise("clocked out", "CLOCKED OUT");
  }

  lemma ExportBreak()
    ensures ExportStatus(Break) == "BREAK"
  {
    ReplaceFirstAbsent("break", '_', ' ');
    UpperPointwise("break", "BREAK");
  }

  lemma ExportPending()
    ensures ExportStatus(Pending) == "PENDING"
  {
    ReplaceFirstAbsent("pending", '_', ' ');
    UpperPointwise("pending", "PENDING");
  }

  /** Different statuses are exported differently. */
  lemma ExportStatusInjective(a: AttendanceStatus, b: AttendanceStatus)
    requires ExportStatus(a) == ExportStatus(b)
    ensures a == b
  {
    ExportStatusNames();
  }

  /** The row of one record: its date, its user's name and department, the
      two clock times (clock-out 'N/A' while open), the hours, the status and
      the notes (empty when absent). */
  function ExportRowOf(users: seq<User>, r: AttendanceRecord): (row: ExportRow)
    ensures row.date == r.date
    ensures row.clockIn == Time(r.clockInTime)
    ensures row.clockOut == ClockNotAvailable <==> r.clockOutTime.None?
    ensures r.clockOutTime.Some? ==> row.clockOut == Time(r.clockOutTime.value)
    ensures row.hoursWorked.Hours? ==> Some(row.hoursWorked.hundredths) == r.totalHours
    ensures |row.status| == |StatusName(r.status)|
    ensures row.notes == "" <==> r.notes.None? || r.notes.value == ""
  {
    ExportRow(
      r.date,
      ExportName(users, r.userId),
      ExportDepartment(users, r.userId),
      Time(r.clockInTime),
      match r.clockOutTime case Some(t) => Time(t) case None => ClockNotAvailable,
      ExportHours(r),
      ExportStatus(r.status),
      r.notes.GetOr(""))
  }

  /** Each column of a row is the column function of its record: the name
      and the department of its user, the hours, the status and the notes. */
  lemma ExportRowColumns(users: seq<User>, r: AttendanceRecord)
    ensures ExportRowOf(users, r).employeeName == ExportName(users, r.userId)
    ensures ExportRowOf(users, r).department == ExportDepartment(users, r.userId)
    ensures ExportRowOf(users, r).hoursWorked == ExportHours(r)
    ensures ExportRowOf(users, r).status == ExportStatus(r.status)
    ensures ExportRowOf(users, r).notes == r.notes.GetOr("")
  {
  }

  /** `prepareAttendanceForExport`: one row per record, in record order. */
  function PrepareAttendanceForExport(records: seq<AttendanceRecord>, users: seq<User>): (rows: seq<ExportRow>)
    ensures |rows| == |records|
    ensures forall i :: 0 <= i < |records| ==> rows[i] == ExportRowOf(users, records[i])
  {
    seq(|records|, i requires 0 <= i < |records| => ExportRowOf(users, records[i]))
  }

  /** Exporting a concatenation exports each part in turn. */
  lemma PrepareConcat(a: seq<AttendanceRecord>, b: seq<AttendanceRecord>, users: seq<User>)
    ensures PrepareAttendanceForExport(a + b, users) ==
            PrepareAttendanceForExport(a, users) + PrepareAttendanceForExport(b, users)
  {
    var x, y := PrepareAttendanceForExport(a, users), PrepareAttendanceForExport(b, users);
    var l := PrepareAttendanceForExport(a + b, users);
    ConcatPointwise(r => ExportRowOf(users, r), a, b, l, x, y);
  }
}
