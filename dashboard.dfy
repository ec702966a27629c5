/** The four figures of the admin dashboard, computed from the employee list
    (`getEmployees`) and the store's records of today
    (`getAllEmployeeAttendance(today)`). */
module Dashboard {
  import opened Seqs
  import opened UserTypes
  import opened AttendanceTypes
  import opened AttendanceService

  /** Hours are in hundredths, as everywhere in the model, so
      `averageHours` is too. */
  datatype DashboardFigures = DashboardFigures(
    totalEmployees: nat,
    presentToday: nat,
    absentToday: int,
    averageHours: real)

  /** The users who have at least one of the given records. */
  function PresentUsers(todays: seq<AttendanceRecord>): (r: set<string>)
    ensures forall u :: u in r <==> exists i :: 0 <= i < |todays| && todays[i].userId == u
    ensures |r| <= |todays|
  {
    Image(todays, UserIdOf)
  }

  /** `fetchDashboardData`: presence counts users, not records; absence is
      the plain difference, which goes negative when records of users outside
      the employee list (the admin, say) are present; the average is over
      the clocked-out records only. */
  function DashboardStats(employees: seq<User>, todays: seq<AttendanceRecord>): (r: DashboardFigures)
    ensures r.totalEmployees == |employees|
    ensures r.presentToday == |PresentUsers(todays)| && r.presentToday <= |todays|
    ensures r.absentToday == |employees| - r.presentToday
    ensures r.averageHours == Average(SumHours(todays), |Filter(todays, IsCompleted)|)
  {
    var totalEmployees := |employees|;
    var presentToday := |PresentUsers(todays)|;
    var completed := Filter(todays, IsCompleted);
    var totalHours := SumHours(completed);
    SumHoursOfCompleted(todays);
    DashboardFigures(totalEmployees, presentToday, totalEmployees - presentToday, Average(totalHours, |completed|))
  }

  /** A user with several records today is present once: one more record of
      a user already present changes neither presence nor absence. */
  lemma PresentOnce(employees: seq<User>, todays: seq<AttendanceRecord>, x: AttendanceRecord, r: AttendanceRecord)
    requires x in todays && x.userId == r.userId
    ensures DashboardStats(employees, todays + [r]).presentToday == DashboardStats(employees, todays).presentToday
    ensures DashboardStats(employees, todays + [r]).absentToday == DashboardStats(employees, todays).absentToday
  {
    ImageAppend(todays, r, UserIdOf);
    var i :| 0 <= i < |todays| && todays[i] == x;
    assert r.userId in PresentUsers(todays);
    assert PresentUsers(todays + [r]) == PresentUsers(todays);
  }

  /** A record of a new user raises presence by one and lowers absence by one. */
  lemma NewUserPresent(employees: seq<User>, todays: seq<AttendanceRecord>, r: AttendanceRecord)
    requires forall x :: x in todays ==> x.userId != r.userId
    ensures DashboardStats(employees, todays + [r]).presentToday == DashboardStats(employees, todays).presentToday + 1
    ensures DashboardStats(employees, todays + [r]).absentToday == DashboardStats(employees, todays).absentToday - 1
  {
    ImageAppend(todays, r, UserIdOf);
    assert UserIdOf(r) !in PresentUsers(todays);
  }

  /** With no employee-role users, one record of today makes absence -1. */
  lemma AbsenceCanBeNegative(r: AttendanceRecord)
    ensures DashboardStats([], [r]).absentToday == -1
  {
    NewUserPresent([], [], r);
  }

  /** Until someone clocks out the average is 0, however many clocked in. */
  lemma NoCompletedNoAverage(employees: seq<User>, todays: seq<AttendanceRecord>)
    requires forall x :: x in todays ==> x.totalHours.None?
    ensures DashboardStats(employees, todays).averageHours == 0.0
  {
    assert forall i :: 0 <= i < |todays| ==> !IsCompleted(todays[i]);
    FilterRejectsAll(todays, IsCompleted);
  }
}
