/** Attendance records and the requests that create and close them.
    Times are integer milliseconds since the epoch (the source keeps ISO
    8601 strings), `totalHours` is in hundredths of an hour (the source
    keeps the two-decimal number), and `date` is the `yyyy-MM-dd` string. */
module AttendanceTypes {
  import opened Seqs

  datatype AttendanceStatus = ClockedIn | ClockedOut | Break | Pending

  /** The status as the source spells it. */
  function StatusName(s: AttendanceStatus): string {
    match s
    case ClockedIn => "clocked_in"
    case ClockedOut => "clocked_out"
    case Break => "break"
    case Pending => "pending"
  }

  datatype Coordinates = Coordinates(latitude: real, longitude: real)

  datatype AttendanceRecord = AttendanceRecord(
    id: string,
    userId: string,
    clockInTime: int,
    clockOutTime: Option<int>,
    clockInLocation: Coordinates,
    clockOutLocation: Option<Coordinates>,
    totalHours: Option<int>,
    status: AttendanceStatus,
    date: string,
    notes: Option<string>)

  /** The location a client reports, with its accuracy in metres. */
  datatype RequestLocation = RequestLocation(latitude: real, longitude: real, accuracy: real)

  datatype ClockInRequest = ClockInRequest(userId: string, location: RequestLocation, timestamp: string)

  datatype ClockOutRequest = ClockOutRequest(
    recordId: string, userId: string, location: RequestLocation, timestamp: string)

  /** Totals over a set of records; `totalHours` in hundredths of an hour,
      `averageHoursPerDay` in hundredths of an hour per record. */
  datatype AttendanceSummary = AttendanceSummary(
    totalDays: nat,
    totalHours: int,
    averageHoursPerDay: real,
    lateArrivals: nat,
    earlyDepartures: nat)
}
