/** The reports page: the records of a date range, hours and head count per
    department, and the seven-day weekday table.  The weekday of a
    `yyyy-MM-dd` date (date-fns `'EEE'`) is the parameter `weekdayOf`,
    numbering Monday 0 to Sunday 6. */
module Reports {
  import opened Seqs
  import opened Text
  import opened AttendanceTypes
  import opened UserTypes
  import opened UserService
  import opened AttendanceService

  // -------------------------------------------------------------- date range

  function InRange(startDate: string, endDate: string): AttendanceRecord -> bool {
    (r: AttendanceRecord) => LexLe(startDate, r.date) && LexLe(r.date, endDate)
  }

  /** The date filter of `fetchData`: both bounds inclusive, compared as
      strings, nothing else dropped or reordered. */
  function ReportRecords(records: seq<AttendanceRecord>, startDate: string, endDate: string)
    : (r: seq<AttendanceRecord>)
    ensures forall x :: x in r <==> x in records && LexLe(startDate, x.date) && LexLe(x.date, endDate)
    ensures forall x :: multiset(r)[x] ==
                          if LexLe(startDate, x.date) && LexLe(x.date, endDate) then multiset(records)[x] else 0
    ensures IsSubsequence(r, records)
  {
    FilterIsSubsequence(records, InRange(startDate, endDate));
    FilterMultiset(records, InRange(startDate, endDate));
    Filter(records, InRange(startDate, endDate))
  }

  // ------------------------------------------------------------- departments

  /** The department of the record's user, when the user is known. */
  function DepartmentOf(users: seq<User>, r: AttendanceRecord): Option<string> {
    match FindUser(users, r.userId)
    case Some(u) => Some(u.department)
    case None => None
  }

  /** The departments of the records whose user is known, one per record. */
  function ResolvedDepartments(records: seq<AttendanceRecord>, users: seq<User>): seq<string> {
    if records == [] then []
    else
      var init := ResolvedDepartments(DropLast(records), users);
      match DepartmentOf(users, Last(records))
      case Some(d) => init + [d]
      case None => init
  }

  /** The department names in the order `deptMap` first sees them. */
  function Departments(records: seq<AttendanceRecord>, users: seq<User>): seq<string> {
    Dedup(ResolvedDepartments(records, users))
  }

  function InDepartment(users: seq<User>, d: string): AttendanceRecord -> bool {
    (r: AttendanceRecord) => DepartmentOf(users, r) == Some(d)
  }

  /** The number of the records `p` keeps. */
  function CountWhere(records: seq<AttendanceRecord>, p: AttendanceRecord -> bool): nat {
    if records == [] then 0
    else CountWhere(DropLast(records), p) + (if p(Last(records)) then 1 else 0)
  }

  /** Sum of the truthy hours of the records `p` keeps, as `if
      (record.totalHours) hours += record.totalHours` adds them. */
  function HoursWhere(records: seq<AttendanceRecord>, p: AttendanceRecord -> bool): int {
    if records == [] then 0
    else HoursWhere(DropLast(records), p) + (if p(Last(records)) then TruthyHours(Last(records)) else 0)
  }

  /** The distinct users behind the records `p` keeps, as a `Set` collects them. */
  function UsersWhere(records: seq<AttendanceRecord>, p: AttendanceRecord -> bool): set<string> {
    if records == [] then {}
    else UsersWhere(DropLast(records), p) + (if p(Last(records)) then {Last(records).userId} else {})
  }

  /** One more record changes each running figure by that record alone. */
  lemma WhereStep(records: seq<AttendanceRecord>, p: AttendanceRecord -> bool, r: AttendanceRecord)
    ensures CountWhere(records + [r], p) == CountWhere(records, p) + (if p(r) then 1 else 0)
    ensures HoursWhere(records + [r], p) == HoursWhere(records, p) + (if p(r) then TruthyHours(r) else 0)
    ensures UsersWhere(records + [r], p) == UsersWhere(records, p) + (if p(r) then {r.userId} else {})
  {
    assert DropLast(records + [r]) == records;
  }

  /** The running figures agree with the plain reading: the length, the
      hours and the user ids of the records `p`'s filter keeps. */
  lemma {:induction false} WhereAsFilter(records: seq<AttendanceRecord>, p: AttendanceRecord -> bool)
    ensures CountWhere(records, p) == |Filter(records, p)|
    ensures HoursWhere(records, p) == SumHours(Filter(records, p))
    ensures UsersWhere(records, p) == Image(Filter(records, p), UserIdOf)
    decreases |records|
  {
    if records != [] {
      var init, r := DropLast(records), Last(records);
      WhereAsFilter(init, p);
      if p(r) {
        SumHoursAppend(Filter(init, p), r);
        ImageAppend(Filter(init, p), r, UserIdOf);
      }
    }
  }

  /** No more distinct users than records kept, and nothing kept means no
      users and no hours. */
  lemma {:induction false} WhereBounds(records: seq<AttendanceRecord>, p: AttendanceRecord -> bool)
    ensures |UsersWhere(records, p)| <= CountWhere(records, p)
    ensures UsersWhere(records, p) == {} <==> CountWhere(records, p) == 0
    ensures CountWhere(records, p) == 0 ==> HoursWhere(records, p) == 0
    decreases |records|
  {
    if records != [] {
      WhereBounds(DropLast(records), p);
    }
  }

  /** Sum of the truthy hours of the department's records. */
  function DepartmentHours(records: seq<AttendanceRecord>, users: seq<User>, d: string): int {
    HoursWhere(records, InDepartment(users, d))
  }

  /** The distinct users behind the department's records. */
  function DepartmentEmployees(records: seq<AttendanceRecord>, users: seq<User>, d: string): set<string> {
    UsersWhere(records, InDepartment(users, d))
  }

  datatype DepartmentStat = DepartmentStat(name: string, hours: int, employees: nat, averageHours: real)

  /** The entry `processChartData` produces for one department: the hours
      and the distinct users of the department's records, never more users
      than records, and an average that is zero only for want of users. */
  function DepartmentEntry(records: seq<AttendanceRecord>, users: seq<User>, d: string): (e: DepartmentStat)
    ensures e.name == d
    ensures e.hours == SumHours(Filter(records, InDepartment(users, d)))
    ensures e.employees == |Image(Filter(records, InDepartment(users, d)), UserIdOf)|
    ensures e.employees <= |Filter(records, InDepartment(users, d))|
    ensures e.employees == 0 ==> e.hours == 0 && e.averageHours == 0.0
    ensures e.employees > 0 ==> e.averageHours == e.hours as real / e.employees as real
  {
    var kept := Filter(records, InDepartment(users, d));
    var hours := DepartmentHours(records, users, d);
    var employees := |DepartmentEmployees(records, users, d)|;
    assert hours == SumHours(kept) && employees == |Image(kept, UserIdOf)| by {
      WhereAsFilter(records, InDepartment(users, d));
    }
    assert employees <= |kept| && (employees == 0 ==> hours == 0) by {
      WhereAsFilter(records, InDepartment(users, d));
      WhereBounds(records, InDepartment(users, d));
    }
    var average := Average(hours, employees);
    DepartmentStat(d, hours, employees, average)
  }

  /** One more record adds its department to the resolved list, when its
      user is known. */
  lemma ResolvedStep(records: seq<AttendanceRecord>, users: seq<User>, r: AttendanceRecord)
    ensures ResolvedDepartments(records + [r], users) ==
            ResolvedDepartments(records, users) +
            (match DepartmentOf(users, r) case Some(d) => [d] case None => [])
  {
    assert DropLast(records + [r]) == records;
  }

  /** One more record changes only its own department's figures. */
  lemma DepartmentStep(records: seq<AttendanceRecord>, users: seq<User>, r: AttendanceRecord, d: string)
    ensures DepartmentHours(records + [r], users, d) ==
            DepartmentHours(records, users, d) + (if DepartmentOf(users, r) == Some(d) then TruthyHours(r) else 0)
    ensures DepartmentEmployees(records + [r], users, d) ==
            DepartmentEmployees(records, users, d) + (if DepartmentOf(users, r) == Some(d) then {r.userId} else {})
  {
    WhereStep(records, InDepartment(users, d), r);
  }

  /** A department no record has reached yet has no hours and no users. */
  lemma {:induction false} UnseenDepartment(records: seq<AttendanceRecord>, users: seq<User>, d: string)
    requires d !in ResolvedDepartments(records, users)
    ensures DepartmentHours(records, users, d) == 0 && DepartmentEmployees(records, users, d) == {}
    decreases |records|
  {
    if records != [] {
      var init, r := DropLast(records), Last(records);
      assert d !in ResolvedDepartments(init, users) && DepartmentOf(users, r) != Some(d);
      UnseenDepartment(init, users, d);
      assert !InDepartment(users, d)(r);
    }
  }

  /** The recursive total agrees with the plain reading: the hours of the
      records the department's filter keeps. */
  lemma DepartmentHoursAsFilter(records: seq<AttendanceRecord>, users: seq<User>, d: string)
    ensures DepartmentHours(records, users, d) == SumHours(Filter(records, InDepartment(users, d)))
  {
    WhereAsFilter(records, InDepartment(users, d));
  }

  /** The recursive user set agrees with the plain reading: the user ids of
      the records the department's filter keeps. */
  lemma DepartmentEmployeesAsImage(records: seq<AttendanceRecord>, users: seq<User>, d: string)
    ensures DepartmentEmployees(records, users, d) == Image(Filter(records, InDepartment(users, d)), UserIdOf)
  {
    WhereAsFilter(records, InDepartment(users, d));
  }

  /** One value of `deptMap`: the running total and the user set. */
  datatype DeptData = DeptData(total: int, employees: set<string>)

  /** What `deptMap` holds after the records `seen`: its keys in insertion
      order are `names`, and each key's total and user set. */
  ghost predicate DepartmentMap(seen: seq<AttendanceRecord>, users: seq<User>, names: seq<string>,
                                deptMap: map<string, DeptData>)
  {
    names == Departments(seen, users) &&
    (forall d :: d in deptMap <==> d in names) &&
    (forall d :: d in names ==> deptMap[d] == DeptData(DepartmentHours(seen, users, d), DepartmentEmployees(seen, users, d)))
  }

  /** The name list after one more record of department `dept`. */
  lemma NamesStep(seen: seq<AttendanceRecord>, users: seq<User>, r: AttendanceRecord, dept: string)
    requires DepartmentOf(users, r) == Some(dept)
    ensures Departments(seen + [r], users) ==
            if dept in Departments(seen, users) then Departments(seen, users) else Departments(seen, users) + [dept]
  {
    ResolvedStep(seen, users, r);
    DedupAppend(ResolvedDepartments(seen, users), dept);
  }

  /** A record of department `dept` leaves every other key's figures as
      they were. */
  lemma OtherDepartmentsKept(seen: seq<AttendanceRecord>, users: seq<User>, r: AttendanceRecord, dept: string,
                             names: seq<string>, deptMap: map<string, DeptData>)
    requires DepartmentMap(seen, users, names, deptMap)
    requires DepartmentOf(users, r) == Some(dept)
    ensures forall d :: d in names && d != dept ==>
              deptMap[d] == DeptData(DepartmentHours(seen + [r], users, d), DepartmentEmployees(seen + [r], users, d))
  {
    forall d | d in names && d != dept
      ensures deptMap[d] == DeptData(DepartmentHours(seen + [r], users, d), DepartmentEmployees(seen + [r], users, d))
    {
      DepartmentStep(seen, users, r, d);
    }
  }

  /** A record of a department already in the map replaces that key's value
      by the department's new figures; every other key keeps its value. */
  lemma KnownDepartmentStep(seen: seq<AttendanceRecord>, users: seq<User>, r: AttendanceRecord, dept: string,
                            names: seq<string>, deptMap: map<string, DeptData>)
    requires DepartmentMap(seen, users, names, deptMap)
    requires DepartmentOf(users, r) == Some(dept) && dept in names
    ensures DepartmentMap(seen + [r], users, names,
                          deptMap[dept := DeptData(DepartmentHours(seen + [r], users, dept),
                                                   DepartmentEmployees(seen + [r], users, dept))])
  {
    NamesStep(seen, users, r, dept);
    OtherDepartmentsKept(seen, users, r, dept, names, deptMap);
  }

  /** A record of a department not yet in the map appends its name and adds
      its key; every other key keeps its value. */
  lemma NewDepartmentStep(seen: seq<AttendanceRecord>, users: seq<User>, r: AttendanceRecord, dept: string,
                          names: seq<string>, deptMap: map<string, DeptData>)
    requires DepartmentMap(seen, users, names, deptMap)
    requires DepartmentOf(users, r) == Some(dept) && dept !in names
    ensures DepartmentMap(seen + [r], users, names + [dept],
                          deptMap[dept := DeptData(DepartmentHours(seen + [r], users, dept),
                                                   DepartmentEmployees(seen + [r], users, dept))])
  {
    NamesStep(seen, users, r, dept);
    OtherDepartmentsKept(seen, users, r, dept, names, deptMap);
    var m := deptMap[dept := DeptData(DepartmentHours(seen + [r], users, dept),
                                      DepartmentEmployees(seen + [r], users, dept))];
    forall d | d in names + [dept]
      ensures m[d] == DeptData(DepartmentHours(seen + [r], users, d), DepartmentEmployees(seen + [r], users, d))
    {
      if d != dept {
        assert d in names;
      }
    }
    assert forall d :: d in m <==> d in names + [dept];
  }

  /** What the record adds to its department's value: its truthy hours
      and its user, starting from zero for a department not yet seen. */
  lemma DepartmentFigures(seen: seq<AttendanceRecord>, users: seq<User>, r: AttendanceRecord, dept: string,
                          names: seq<string>, deptMap: map<string, DeptData>)
    requires DepartmentMap(seen, users, names, deptMap)
    requires DepartmentOf(users, r) == Some(dept)
    ensures var entry := if dept in deptMap then deptMap[dept] else DeptData(0, {});
            DepartmentHours(seen + [r], users, dept) == entry.total + TruthyHours(r) &&
            DepartmentEmployees(seen + [r], users, dept) == entry.employees + {r.userId}
  {
    DepartmentStep(seen, users, r, dept);
    if dept !in deptMap {
      UnseenDepartment(seen, users, dept);
    }
  }

  /** A record whose user is unknown leaves the map as it is. */
  lemma UnknownDepartmentStep(seen: seq<AttendanceRecord>, users: seq<User>, r: AttendanceRecord,
                              names: seq<string>, deptMap: map<string, DeptData>)
    requires DepartmentMap(seen, users, names, deptMap)
    requires DepartmentOf(users, r).None?
    ensures DepartmentMap(seen + [r], users, names, deptMap)
  {
    ResolvedStep(seen, users, r);
    forall d | d in names
      ensures deptMap[d] == DeptData(DepartmentHours(seen + [r], users, d), DepartmentEmployees(seen + [r], users, d))
    {
      DepartmentStep(seen, users, r, d);
    }
  }

  /** The body of the first `forEach` of `processChartData`.  A department
      not in the map starts from a zero total and an empty set. */
  method AddToDepartment(ghost seen: seq<AttendanceRecord>, users: seq<User>, r: AttendanceRecord,
                         names: seq<string>, deptMap: map<string, DeptData>)
    returns (names': seq<string>, deptMap': map<string, DeptData>)
    requires DepartmentMap(seen, users, names, deptMap)
    ensures DepartmentMap(seen + [r], users, names', deptMap')
  {
    names', deptMap' := names, deptMap;
    var user := FindUser(users, r.userId);
    if user.Some? {
      var dept := user.value.department;
      assert user.value.id == r.userId && DepartmentOf(users, r) == Some(dept);
      DepartmentFigures(seen, users, r, dept, names, deptMap);
      var deptData := if dept in deptMap then deptMap[dept] else DeptData(0, {});
      if dept !in deptMap {
        names' := names + [dept];
      }
      deptData := deptData.(employees := deptData.employees + {user.value.id});
      if r.totalHours.Some? && r.totalHours.value != 0 {
        deptData := deptData.(total := deptData.total + r.totalHours.value);
      }
      assert deptData == DeptData(DepartmentHours(seen + [r], users, dept), DepartmentEmployees(seen + [r], users, dept));
      deptMap' := deptMap[dept := deptData];
      if dept in names {
        KnownDepartmentStep(seen, users, r, dept, names, deptMap);
      } else {
        NewDepartmentStep(seen, users, r, dept, names, deptMap);
      }
    } else {
      UnknownDepartmentStep(seen, users, r, names, deptMap);
    }
  }

  /** The `forEach` of `processChartData`: the name list and the map after
      every record. */
  method CollectDepartments(records: seq<AttendanceRecord>, users: seq<User>)
    returns (names: seq<string>, deptMap: map<string, DeptData>)
    ensures DepartmentMap(records, users, names, deptMap)
  {
    names, deptMap := [], map[];
    for k := 0 to |records|
      invariant DepartmentMap(records[..k], users, names, deptMap)
    {
      assert records[..k + 1] == records[..k] + [records[k]];
      names, deptMap := AddToDepartment(records[..k], users, records[k], names, deptMap);
    }
    assert records[..|records|] == records;
  }

  /** A department's entry read off the map. */
  lemma EntryFromMap(records: seq<AttendanceRecord>, users: seq<User>, names: seq<string>,
                     deptMap: map<string, DeptData>, d: string)
    requires DepartmentMap(records, users, names, deptMap)
    requires d in names
    ensures DepartmentEntry(records, users, d) ==
            DepartmentStat(d, deptMap[d].total, |deptMap[d].employees|, Average(deptMap[d].total, |deptMap[d].employees|))
  {
  }

  /** The `map` over `deptMap`'s entries: one stat per name, read off the map. */
  method ListDepartments(names: seq<string>, deptMap: map<string, DeptData>) returns (stats: seq<DepartmentStat>)
    requires forall d :: d in names ==> d in deptMap
    ensures |stats| == |names|
    ensures forall j :: 0 <= j < |names| ==>
              stats[j] == DepartmentStat(names[j], deptMap[names[j]].total, |deptMap[names[j]].employees|,
                                         Average(deptMap[names[j]].total, |deptMap[names[j]].employees|))
  {
    stats := [];
    for i := 0 to |names|
      invariant |stats| == i
      invariant forall j :: 0 <= j < i ==>
                  stats[j] == DepartmentStat(names[j], deptMap[names[j]].total, |deptMap[names[j]].employees|,
                                             Average(deptMap[names[j]].total, |deptMap[names[j]].employees|))
    {
      var data := deptMap[names[i]];
      stats := stats + [DepartmentStat(names[i], data.total, |data.employees|, Average(data.total, |data.employees|))];
    }
  }

  /** `processChartData`'s department half: fills `deptMap` record by
      record, then lists its entries in insertion order. */
  method DepartmentStats(records: seq<AttendanceRecord>, users: seq<User>) returns (stats: seq<DepartmentStat>)
    ensures |stats| == |Departments(records, users)|
    ensures forall i :: 0 <= i < |stats| ==>
              stats[i] == DepartmentEntry(records, users, Departments(records, users)[i])
  {
    var names, deptMap := CollectDepartments(records, users);
    stats := ListDepartments(names, deptMap);
    forall i | 0 <= i < |stats|
      ensures stats[i] == DepartmentEntry(records, users, names[i])
    {
      EntryFromMap(records, users, names, deptMap, names[i]);
    }
  }

  /** Records whose user is unknown add nothing to any department. */
  lemma UnknownUsersIgnored(records: seq<AttendanceRecord>, users: seq<User>, r: AttendanceRecord, d: string)
    requires FindUser(users, r.userId).None?
    ensures Departments(records + [r], users) == Departments(records, users)
    ensures DepartmentEntry(records + [r], users, d) == DepartmentEntry(records, users, d)
  {
    ResolvedStep(records, users, r);
    DepartmentStep(records, users, r, d);
  }

  // ---------------------------------------------------------------- weekdays

  type Weekday = d: int | 0 <= d < 7

  const DayNames: seq<string> := ["Mon", "Tue", "Wed", "Thu", "Fri", "Sat", "Sun"]

  datatype DayStat = DayStat(day: string, count: nat, hours: int, averageHours: real)

  function OnDay(weekdayOf: string -> Weekday, d: Weekday): AttendanceRecord -> bool {
    (r: AttendanceRecord) => weekdayOf(r.date) == d
  }

  /** The number of records falling on weekday `d`. */
  function DayCount(records: seq<AttendanceRecord>, weekdayOf: string -> Weekday, d: Weekday): nat {
    CountWhere(records, OnDay(weekdayOf, d))
  }

  /** The truthy hours of the records falling on weekday `d`. */
  function DayHours(records: seq<AttendanceRecord>, weekdayOf: string -> Weekday, d: Weekday): int {
    HoursWhere(records, OnDay(weekdayOf, d))
  }

  /** The day figures agree with the plain reading: the length and the
      hours of the records the day's filter keeps. */
  lemma DayFiguresAsFilter(records: seq<AttendanceRecord>, weekdayOf: string -> Weekday, d: Weekday)
    ensures DayCount(records, weekdayOf, d) == |Filter(records, OnDay(weekdayOf, d))|
    ensures DayHours(records, weekdayOf, d) == SumHours(Filter(records, OnDay(weekdayOf, d)))
  {
    WhereAsFilter(records, OnDay(weekdayOf, d));
  }

  /** The row of the weekday table for day `d`: the day's name, the number
      and the hours of the records on that day, and their average. */
  function DayEntry(records: seq<AttendanceRecord>, weekdayOf: string -> Weekday, d: Weekday): (e: DayStat)
    ensures e.day == DayNames[d]
    ensures e.count == |Filter(records, OnDay(weekdayOf, d))|
    ensures e.hours == SumHours(Filter(records, OnDay(weekdayOf, d)))
    ensures e.count == 0 ==> e.hours == 0 && e.averageHours == 0.0
    ensures e.count > 0 ==> e.averageHours == e.hours as real / e.count as real
  {
    var kept := Filter(records, OnDay(weekdayOf, d));
    var count := DayCount(records, weekdayOf, d);
    var hours := DayHours(records, weekdayOf, d);
    assert count == |kept| && hours == SumHours(kept) && (count == 0 ==> hours == 0) by {
      WhereAsFilter(records, OnDay(weekdayOf, d));
      WhereBounds(records, OnDay(weekdayOf, d));
    }
    var average := Average(hours, count);
    DayStat(DayNames[d], count, hours, average)
  }

  function CountSum(stats: seq<DayStat>): nat {
    if stats == [] then 0 else CountSum(DropLast(stats)) + Last(stats).count
  }

  /** Sum of the seven day counts. */
  function WeekCount(records: seq<AttendanceRecord>, weekdayOf: string -> Weekday): nat {
    DayCount(records, weekdayOf, 0) + DayCount(records, weekdayOf, 1) + DayCount(records, weekdayOf, 2) +
    DayCount(records, weekdayOf, 3) + DayCount(records, weekdayOf, 4) + DayCount(records, weekdayOf, 5) +
    DayCount(records, weekdayOf, 6)
  }

  lemma DayStep(records: seq<AttendanceRecord>, weekdayOf: string -> Weekday, r: AttendanceRecord)
    ensures forall d: Weekday ::
              DayCount(records + [r], weekdayOf, d) == DayCount(records, weekdayOf, d) + (if weekdayOf(r.date) == d then 1 else 0)
    ensures forall d: Weekday ::
              DayHours(records + [r], weekdayOf, d) ==
              DayHours(records, weekdayOf, d) + (if weekdayOf(r.date) == d then TruthyHours(r) else 0)
  {
    forall d: Weekday
      ensures DayCount(records + [r], weekdayOf, d) == DayCount(records, weekdayOf, d) + (if weekdayOf(r.date) == d then 1 else 0)
      ensures DayHours(records + [r], weekdayOf, d) ==
              DayHours(records, weekdayOf, d) + (if weekdayOf(r.date) == d then TruthyHours(r) else 0)
    {
      WhereStep(records, OnDay(weekdayOf, d), r);
    }
  }

  /** Every record falls on exactly one weekday, so the seven counts add up
      to the number of records. */
  lemma {:induction false} WeekCountIsLength(records: seq<AttendanceRecord>, weekdayOf: string -> Weekday)
    ensures WeekCount(records, weekdayOf) == |records|
    decreases |records|
  {
    if records != [] {
      var init, r := DropLast(records), Last(records);
      assert records == init + [r];
      WeekCountIsLength(init, weekdayOf);
      DayStep(init, weekdayOf, r);
    }
  }

  /** What `dayMap` holds after the records `seen`: a day is a key once a
      record has fallen on it, with that day's count and hours. */
  ghost predicate DayMap(seen: seq<AttendanceRecord>, weekdayOf: string -> Weekday, dayMap: map<Weekday, (nat, int)>) {
    (forall d: Weekday :: d in dayMap ==>
       dayMap[d] == (DayCount(seen, weekdayOf, d), DayHours(seen, weekdayOf, d))) &&
    (forall d: Weekday :: d !in dayMap ==> DayCount(seen, weekdayOf, d) == 0 && DayHours(seen, weekdayOf, d) == 0)
  }

  /** The body of the second `forEach` of `processChartData`. */
  method AddToDay(ghost seen: seq<AttendanceRecord>, weekdayOf: string -> Weekday, r: AttendanceRecord,
                  dayMap: map<Weekday, (nat, int)>)
    returns (dayMap': map<Weekday, (nat, int)>)
    requires DayMap(seen, weekdayOf, dayMap)
    ensures DayMap(seen + [r], weekdayOf, dayMap')
  {
    DayStep(seen, weekdayOf, r);
    var day := weekdayOf(r.date);
    dayMap' := dayMap;
    if day !in dayMap' {
      dayMap' := dayMap'[day := (0, 0)];
    }
    var (count, hours) := dayMap'[day];
    dayMap' := dayMap'[day := (count + 1, if r.totalHours.Some? && r.totalHours.value != 0 then hours + r.totalHours.value else hours)];
  }

  lemma CountSumPrefix(stats: seq<DayStat>, k: nat)
    requires 0 < k <= |stats|
    ensures CountSum(stats[..k]) == CountSum(stats[..k - 1]) + stats[k - 1].count
  {
    assert DropLast(stats[..k]) == stats[..k - 1];
  }

  lemma CountSumOfWeek(stats: seq<DayStat>, records: seq<AttendanceRecord>, weekdayOf: string -> Weekday)
    requires |stats| == 7 && forall d: Weekday :: stats[d].count == DayCount(records, weekdayOf, d)
    ensures CountSum(stats) == |records|
  {
    WeekCountIsLength(records, weekdayOf);
    forall k | 0 < k <= 7
      ensures CountSum(stats[..k]) == CountSum(stats[..k - 1]) + stats[k - 1].count
    {
      CountSumPrefix(stats, k);
    }
    assert stats[..7] == stats;
    assert stats[..0] == [];
  }

  /** `processChartData`'s weekday half: counts and hours per weekday in a
      map, then the fixed Monday-to-Sunday projection with zero for days the
      map never saw. */
  method WeekdayStats(records: seq<AttendanceRecord>, weekdayOf: string -> Weekday) returns (stats: seq<DayStat>)
    ensures |stats| == 7
    ensures forall d: Weekday :: stats[d] == DayEntry(records, weekdayOf, d)
    ensures forall d: Weekday :: stats[d].day == DayNames[d]
    ensures records == [] ==> forall d: Weekday :: stats[d].count == 0 && stats[d].hours == 0
    ensures CountSum(stats) == |records|
  {
    var dayMap: map<Weekday, (nat, int)> := map[];
    for k := 0 to |records|
      invariant DayMap(records[..k], weekdayOf, dayMap)
    {
      assert records[..k + 1] == records[..k] + [records[k]];
      dayMap := AddToDay(records[..k], weekdayOf, records[k], dayMap);
    }
    assert records[..|records|] == records;
    stats := [];
    for i := 0 to 7
      invariant |stats| == i
      invariant forall j :: 0 <= j < i ==> stats[j] == DayEntry(records, weekdayOf, j)
    {
      var (count, hours) := if i in dayMap then dayMap[i] else (0, 0);
      stats := stats + [DayStat(DayNames[i], count, hours, Average(hours, count))];
    }
    CountSumOfWeek(stats, records, weekdayOf);
  }
}
