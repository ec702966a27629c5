/** The attendance service: the in-memory record store, the geofence check,
    clock-in and clock-out, and the queries and summary over the store.
    The Haversine formula is the parameter `distance(lat1, lon1, lat2, lon2)`;
    the wall clock reaches every operation as `now` (milliseconds) and
    `today` (`yyyy-MM-dd`), and the local hour and minute of a time as
    `hourOf` and `minuteOf`. */
module AttendanceService {
  import opened Seqs
  import opened Text
  import opened AttendanceTypes
  import opened UserTypes

  /** Great-circle distance in metres between (lat1, lon1) and (lat2, lon2). */
  type Distance = (real, real, real, real) -> real

  /** The two offices a clock-in is checked against. */
  const AllowedLocations: seq<GeoFence> := [
    GeoFence("Main Office", 37.7749, -122.4194, 100.0),
    GeoFence("Satellite Office", 37.3382, -121.8863, 100.0)
  ]

  const OutsideNote := "Location outside of allowed area"

  // ---------------------------------------------------------------- geofence

  predicate InsideFence(location: RequestLocation, fence: GeoFence, distance: Distance) {
    distance(location.latitude, location.longitude, fence.latitude, fence.longitude) <= fence.radiusMeters
  }

  /** The reference meaning of the fence check: an OR over the list. */
  predicate InsideAnyFence(location: RequestLocation, fences: seq<GeoFence>, distance: Distance) {
    exists f :: f in fences && InsideFence(location, f, distance)
  }

  /** The loop of `isLocationAllowed`, which returns at the first fence whose
      centre is within its radius. */
  method IsLocationAllowed(location: RequestLocation, fences: seq<GeoFence>, distance: Distance)
    returns (allowed: bool)
    ensures allowed <==> InsideAnyFence(location, fences, distance)
    ensures fences == [] ==> !allowed
  {
    for i := 0 to |fences|
      invariant forall j :: 0 <= j < i ==> !InsideFence(location, fences[j], distance)
    {
      var d := distance(location.latitude, location.longitude, fences[i].latitude, fences[i].longitude);
      if d <= fences[i].radiusMeters {
        assert InsideFence(location, fences[i], distance);
        return true;
      }
    }
    return false;
  }

  /** The order in which fences are tried does not change the answer. */
  lemma FenceOrderIrrelevant(location: RequestLocation, a: seq<GeoFence>, b: seq<GeoFence>, distance: Distance)
    requires multiset(a) == multiset(b)
    ensures InsideAnyFence(location, a, distance) == InsideAnyFence(location, b, distance)
  {
    forall f | f in a ensures f in b {
      assert f in multiset(a);
    }
    forall f | f in b ensures f in a {
      assert f in multiset(b);
    }
  }

  /** A fence contains its own centre, whatever the reported accuracy, given
      that the distance from a point to itself is zero and radii are not
      negative. A worked instance of IsLocationAllowed's answer: the point at
      distance zero from a fence. */
  lemma CentreIsInside(fences: seq<GeoFence>, i: nat, accuracy: real, distance: Distance)
    requires i < |fences| && fences[i].radiusMeters >= 0.0
    requires distance(fences[i].latitude, fences[i].longitude, fences[i].latitude, fences[i].longitude) == 0.0
    ensures InsideAnyFence(RequestLocation(fences[i].latitude, fences[i].longitude, accuracy), fences, distance)
  {
    assert InsideFence(RequestLocation(fences[i].latitude, fences[i].longitude, accuracy), fences[i], distance);
  }

  // ------------------------------------------------------------------- hours

  /** One hundredth of an hour in milliseconds. */
  const MillisPerHundredth := 36000

  /** `parseFloat((elapsed / 3600000).toFixed(2))` in hundredths of an hour:
      the nearest hundredth, a half rounding away from zero. */
  function RoundedHours(elapsedMs: int): (h: int)
    ensures -18000 <= h * MillisPerHundredth - elapsedMs <= 18000
    ensures elapsedMs >= 0 ==> h >= 0
    ensures elapsedMs % MillisPerHundredth == 0 ==> h * MillisPerHundredth == elapsedMs
  {
    if elapsedMs >= 0 then (elapsedMs + 18000) / MillisPerHundredth
    else -((-elapsedMs + 18000) / MillisPerHundredth)
  }

  /** Rounding treats a negative elapsed time as the mirror image of the
      positive one. */
  lemma RoundedHoursOdd(elapsedMs: int)
    ensures RoundedHours(-elapsedMs) == -RoundedHours(elapsedMs)
  {
  }

  lemma RoundedHoursMonotone(a: int, b: int)
    requires a <= b
    ensures RoundedHours(a) <= RoundedHours(b)
  {
    if a < 0 && b >= 0 {
    } else if a < 0 {
      assert (-b + 18000) / MillisPerHundredth <= (-a + 18000) / MillisPerHundredth;
    } else {
      assert (a + 18000) / MillisPerHundredth <= (b + 18000) / MillisPerHundredth;
    }
  }

  // ----------------------------------------------------------------- summary

  /** `count > 0 ? total / count : 0`, the form every average in the
      source takes. */
  function Average(total: int, count: nat): (a: real)
    ensures count > 0 ==> a * (count as real) == total as real
    ensures count == 0 ==> a == 0.0
  {
    if count > 0 then total as real / count as real else 0.0
  }

  /** `record.totalHours || 0`. */
  function HoursOrZero(r: AttendanceRecord): int {
    r.totalHours.GetOr(0)
  }

  /** `if (record.totalHours) total += record.totalHours`: a null or zero
      total is skipped, which adds the same as `totalHours || 0`. */
  function TruthyHours(r: AttendanceRecord): (h: int)
    ensures h == HoursOrZero(r)
  {
    if r.totalHours.Some? && r.totalHours.value != 0 then r.totalHours.value else 0
  }

  function UserIdOf(r: AttendanceRecord): string {
    r.userId
  }

  /** `totalHours !== null`: the record has been clocked out. */
  const IsCompleted: AttendanceRecord -> bool := (r: AttendanceRecord) => r.totalHours.Some?

  /** `reduce((sum, r) => sum + (r.totalHours || 0), 0)`: records still
      open add nothing, and the sum of non-negative hours is non-negative. */
  function SumHours(records: seq<AttendanceRecord>): (h: int)
    ensures (forall i :: 0 <= i < |records| ==> records[i].totalHours.None?) ==> h == 0
    ensures (forall i :: 0 <= i < |records| ==> HoursOrZero(records[i]) >= 0) ==> h >= 0
  {
    if records == [] then 0
    else
      assert forall i :: 0 <= i < |DropLast(records)| ==> DropLast(records)[i] == records[i];
      SumHours(DropLast(records)) + HoursOrZero(Last(records))
  }

  lemma SumHoursAppend(records: seq<AttendanceRecord>, r: AttendanceRecord)
    ensures SumHours(records + [r]) == SumHours(records) + HoursOrZero(r)
  {
    assert DropLast(records + [r]) == records;
  }

  lemma {:induction false} SumHoursConcat(a: seq<AttendanceRecord>, b: seq<AttendanceRecord>)
    ensures SumHours(a + b) == SumHours(a) + SumHours(b)
    decreases |b|
  {
    if b == [] {
      assert a + b == a;
    } else {
      assert a + b == (a + DropLast(b)) + [Last(b)];
      assert b == DropLast(b) + [Last(b)];
      SumHoursAppend(a + DropLast(b), Last(b));
      SumHoursAppend(DropLast(b), Last(b));
      SumHoursConcat(a, DropLast(b));
    }
  }

  /** Records without hours add nothing, so dropping them keeps the sum. */
  lemma {:induction false} SumHoursOfCompleted(records: seq<AttendanceRecord>)
    ensures SumHours(Filter(records, IsCompleted)) == SumHours(records)
    decreases |records|
  {
    if records != [] {
      var p := IsCompleted;
      SumHoursOfCompleted(DropLast(records));
      if p(Last(records)) {
        SumHoursAppend(Filter(DropLast(records), p), Last(records));
      }
    }
  }

  /** Clocked in at 9:15 or later in local time: with minutes in range, the
      same as at least 555 minutes after midnight. */
  predicate IsLateArrival(r: AttendanceRecord, hourOf: int -> int, minuteOf: int -> int)
    ensures 0 <= minuteOf(r.clockInTime) < 60 ==>
              (IsLateArrival(r, hourOf, minuteOf) <==>
               hourOf(r.clockInTime) * 60 + minuteOf(r.clockInTime) >= 9 * 60 + 15)
  {
    var hour := hourOf(r.clockInTime);
    hour > 9 || (hour == 9 && minuteOf(r.clockInTime) >= 15)
  }

  /** Clocked out before 17:00 in local time, that is less than 1020 minutes
      after midnight; a record still open is never an early departure. */
  predicate IsEarlyDeparture(r: AttendanceRecord, hourOf: int -> int)
    ensures IsEarlyDeparture(r, hourOf) <==> r.clockOutTime.Some? && hourOf(r.clockOutTime.value) * 60 < 17 * 60
    ensures r.clockOutTime.None? ==> !IsEarlyDeparture(r, hourOf)
    ensures r.clockOutTime.Some? && hourOf(r.clockOutTime.value) >= 17 ==> !IsEarlyDeparture(r, hourOf)
  {
    r.clockOutTime.Some? && hourOf(r.clockOutTime.value) < 17
  }

  function LateArrival(hourOf: int -> int, minuteOf: int -> int): AttendanceRecord -> bool {
    r => IsLateArrival(r, hourOf, minuteOf)
  }

  function EarlyDeparture(hourOf: int -> int): AttendanceRecord -> bool {
    r => IsEarlyDeparture(r, hourOf)
  }

  /** The body of `getAttendanceSummary` over a history. */
  function Summarize(history: seq<AttendanceRecord>, hourOf: int -> int, minuteOf: int -> int)
    : (s: AttendanceSummary)
    ensures s.totalDays == |history| && s.totalHours == SumHours(history)
    ensures s.averageHoursPerDay == Average(s.totalHours, s.totalDays)
    ensures s.totalDays == 0 ==> s.averageHoursPerDay == 0.0 && s.totalHours == 0
    ensures s.lateArrivals <= s.totalDays && s.earlyDepartures <= s.totalDays
    ensures s.lateArrivals == |Filter(history, LateArrival(hourOf, minuteOf))|
    ensures s.earlyDepartures == |Filter(history, EarlyDeparture(hourOf))|
  {
    var totalDays := |history|;
    var totalHours := SumHours(history);
    AttendanceSummary(
      totalDays,
      totalHours,
      Average(totalHours, totalDays),
      Count(history, LateArrival(hourOf, minuteOf)),
      Count(history, EarlyDeparture(hourOf)))
  }

  /** Summing two histories separately and together agree on every count. */
  lemma SummarizeConcat(a: seq<AttendanceRecord>, b: seq<AttendanceRecord>, hourOf: int -> int, minuteOf: int -> int)
    ensures var s, sa, sb := Summarize(a + b, hourOf, minuteOf), Summarize(a, hourOf, minuteOf), Summarize(b, hourOf, minuteOf);
      s.totalDays == sa.totalDays + sb.totalDays &&
      s.totalHours == sa.totalHours + sb.totalHours &&
      s.lateArrivals == sa.lateArrivals + sb.lateArrivals &&
      s.earlyDepartures == sa.earlyDepartures + sb.earlyDepartures
  {
    SumHoursConcat(a, b);
    FilterConcat(a, b, LateArrival(hourOf, minuteOf));
    FilterConcat(a, b, EarlyDeparture(hourOf));
  }

  // ------------------------------------------------------------------- store

  /** `if (x)` on an optional string: present and not empty. */
  predicate Given(s: Option<string>) {
    s.Some? && s.value != ""
  }

  /** The records `getAttendanceHistory` keeps. */
  predicate InHistory(r: AttendanceRecord, userId: string, startDate: Option<string>, endDate: Option<string>) {
    r.userId == userId &&
    (Given(startDate) ==> LexLe(startDate.value, r.date)) &&
    (Given(endDate) ==> LexLe(r.date, endDate.value))
  }

  /** Record ids are the positions, counted from one, that `clockIn` gives. */
  ghost predicate IdsArePositions(records: seq<AttendanceRecord>) {
    forall i :: 0 <= i < |records| ==> records[i].id == NatToString(i + 1)
  }

  lemma IdsDistinct(records: seq<AttendanceRecord>, i: nat, j: nat)
    requires IdsArePositions(records)
    requires i < j < |records|
    ensures records[i].id != records[j].id
  {
    NatToStringInjective(i + 1, j + 1);
  }

  /** The index `clockOut` finds with `find`. */
  function LocateRecord(records: seq<AttendanceRecord>, recordId: string, userId: string): Option<nat> {
    FindIndex(records, RecordMatch(recordId, userId))
  }

  function RecordMatch(recordId: string, userId: string): AttendanceRecord -> bool {
    (r: AttendanceRecord) => r.id == recordId && r.userId == userId
  }

  const InitialRecords: seq<AttendanceRecord> := [
    AttendanceRecord("1", "2", 1681117200000, Some(1681147800000),
      Coordinates(37.7749, -122.4194), Some(Coordinates(37.7749, -122.4194)),
      Some(850), ClockedOut, "2023-04-10", None),
    AttendanceRecord("2", "2", 1681203300000, Some(1681232700000),
      Coordinates(37.7749, -122.4194), Some(Coordinates(37.7749, -122.4194)),
      Some(817), ClockedOut, "2023-04-11", None),
    AttendanceRecord("3", "3", 1681204500000, Some(1681236000000),
      Coordinates(37.7749, -122.4194), Some(Coordinates(37.7749, -122.4194)),
      Some(875), ClockedOut, "2023-04-11", None)
  ]

  /** The demo records agree with the clock-out rule: each total is the
      rounded time between clock-in and clock-out. */
  lemma InitialHoursConsistent()
    ensures IdsArePositions(InitialRecords)
    ensures forall r :: r in InitialRecords ==>
              r.clockOutTime.Some? && r.totalHours == Some(RoundedHours(r.clockOutTime.value - r.clockInTime))
  {
  }

  datatype ClockError =
    | NoActiveRecord   // "No active clock-in record found"
    | NotClockedIn     // "Employee is not clocked in"

  datatype ClockOutResult = Done(record: AttendanceRecord) | Failed(error: ClockError)

  /** The module-level `mockAttendanceRecords` array and the operations that
      read and change it. */
  class AttendanceStore {
    var records: seq<AttendanceRecord>

    ghost predicate Valid()
      reads this
    {
      IdsArePositions(records)
    }

    constructor ()
      ensures Valid() && records == InitialRecords
    {
      records := InitialRecords;
    }

    /** Always appends a new clocked-in record; a location outside every
        fence only adds a note. */
    method ClockIn(request: ClockInRequest, now: int, today: string, distance: Distance)
      returns (rec: AttendanceRecord)
      requires Valid()
      modifies this
      ensures Valid()
      ensures records == old(records) + [rec]
      ensures rec.id == NatToString(|old(records)| + 1) && rec.userId == request.userId
      ensures rec.status == ClockedIn && rec.clockInTime == now && rec.date == today
      ensures rec.clockOutTime == None && rec.totalHours == None && rec.clockOutLocation == None
      ensures rec.clockInLocation == Coordinates(request.location.latitude, request.location.longitude)
      ensures rec.notes == if InsideAnyFence(request.location, AllowedLocations, distance) then None
                           else Some(OutsideNote)
      ensures CurrentStatus(request.userId, today).Some?
    {
      var locationValid := IsLocationAllowed(request.location, AllowedLocations, distance);
      rec := AttendanceRecord(
        NatToString(|records| + 1),
        request.userId,
        now,
        None,
        Coordinates(request.location.latitude, request.location.longitude),
        None,
        None,
        ClockedIn,
        today,
        if locationValid then None else Some(OutsideNote));
      records := records + [rec];
    }

    /** Closes the first record with the given id and user, provided it is
        clocked in; otherwise fails and changes nothing. */
    method ClockOut(request: ClockOutRequest, now: int) returns (result: ClockOutResult)
      requires Valid()
      modifies this
      ensures Valid()
      ensures LocateRecord(old(records), request.recordId, request.userId).None? ==>
                result == Failed(NoActiveRecord) && records == old(records)
      ensures LocateRecord(old(records), request.recordId, request.userId).Some? ==>
                var i := LocateRecord(old(records), request.recordId, request.userId).value;
                var r := old(records)[i];
                if r.status != ClockedIn then
                  result == Failed(NotClockedIn) && records == old(records)
                else
                  result.Done? && records == old(records)[i := result.record] &&
                  result.record == r.(clockOutTime := Some(now),
                                      clockOutLocation := Some(Coordinates(request.location.latitude,
                                                                           request.location.longitude)),
                                      totalHours := Some(RoundedHours(now - r.clockInTime)),
                                      status := ClockedOut)
    {
      var found := LocateRecord(records, request.recordId, request.userId);
      if found.None? {
        return Failed(NoActiveRecord);
      }
      var i := found.value;
      var r := records[i];
      if r.status != ClockedIn {
        return Failed(NotClockedIn);
      }
      var updated := r.(
        clockOutTime := Some(now),
        clockOutLocation := Some(Coordinates(request.location.latitude, request.location.longitude)),
        totalHours := Some(RoundedHours(now - r.clockInTime)),
        status := ClockedOut);
      records := records[i := updated];
      result := Done(updated);
    }

    /** Today's first clocked-in record of the user, if there is one. */
    function CurrentStatus(userId: string, today: string): (r: Option<AttendanceRecord>)
      reads this
      ensures r.Some? ==> r.value in records && r.value.userId == userId &&
                          r.value.date == today && r.value.status == ClockedIn
      ensures r.Some? ==> exists i :: 0 <= i < |records| && records[i] == r.value &&
                            forall j :: 0 <= j < i ==>
                              !(records[j].userId == userId && records[j].date == today && records[j].status == ClockedIn)
      ensures r.None? <==> forall x :: x in records ==>
                             !(x.userId == userId && x.date == today && x.status == ClockedIn)
    {
      Find(records, (x: AttendanceRecord) => x.userId == userId && x.date == today && x.status == ClockedIn)
    }

    /** The user's records within the bounds that are given, in store order. */
    function History(userId: string, startDate: Option<string>, endDate: Option<string>)
      : (r: seq<AttendanceRecord>)
      reads this
      ensures r == Filter(records, HistoryFilter(userId, startDate, endDate))
      ensures forall x :: x in r <==> x in records && InHistory(x, userId, startDate, endDate)
      ensures IsSubsequence(r, records)
    {
      HistoryFilters(records, userId, startDate, endDate);
      FilterIsSubsequence(records, HistoryFilter(userId, startDate, endDate));
      HistoryStages(records, userId, startDate, endDate)
    }

    /** `getAttendanceSummary`: the summary of the user's history. */
    function Summary(userId: string, startDate: string, endDate: string, hourOf: int -> int, minuteOf: int -> int)
      : (s: AttendanceSummary)
      reads this
      ensures s.totalDays == |History(userId, Some(startDate), Some(endDate))|
      ensures s.totalHours == SumHours(History(userId, Some(startDate), Some(endDate)))
      ensures s.lateArrivals <= s.totalDays && s.earlyDepartures <= s.totalDays
      ensures s == Summarize(History(userId, Some(startDate), Some(endDate)), hourOf, minuteOf)
    {
      Summarize(History(userId, Some(startDate), Some(endDate)), hourOf, minuteOf)
    }

    /** `getAllEmployeeAttendance`: every record, or those of one date. */
    function AllAttendance(date: Option<string>): (r: seq<AttendanceRecord>)
      reads this
      ensures !Given(date) ==> r == records
      ensures Given(date) ==> forall x :: x in r <==> x in records && x.date == date.value
      ensures Given(date) ==> forall x :: multiset(r)[x] == if x.date == date.value then multiset(records)[x] else 0
      ensures IsSubsequence(r, records)
    {
      SubsequenceReflexive(records);
      if Given(date) then
        FilterIsSubsequence(records, OnDate(date.value));
        FilterMultiset(records, OnDate(date.value));
        Filter(records, OnDate(date.value))
      else records
    }
  }

  /** Nothing rejects a second clock-in: the same user ends up with two
      distinct records clocked in on the same day. */
  method ClockInTwice(store: AttendanceStore, request: ClockInRequest, now: int, today: string, distance: Distance)
    returns (first: AttendanceRecord, second: AttendanceRecord)
    requires store.Valid()
    modifies store
    ensures store.Valid() && store.records == old(store.records) + [first, second]
    ensures first.id != second.id && first.userId == second.userId == request.userId
    ensures first.date == second.date == today && first.status == second.status == ClockedIn
  {
    first := store.ClockIn(request, now, today, distance);
    second := store.ClockIn(request, now, today, distance);
    NatToStringInjective(|old(store.records)| + 1, |old(store.records)| + 2);
  }

  /** Closing the same record twice: the second attempt fails because the
      record is no longer clocked in, and a failed first attempt fails again
      the same way. */
  method ClockOutTwice(store: AttendanceStore, request: ClockOutRequest, now1: int, now2: int)
    returns (first: ClockOutResult, second: ClockOutResult)
    requires store.Valid()
    modifies store
    ensures store.Valid()
    ensures first.Done? ==> second == Failed(NotClockedIn) && first.record.status == ClockedOut
    ensures first.Failed? ==> second == first && store.records == old(store.records)
  {
    ghost var before := store.records;
    first := store.ClockOut(request, now1);
    if first.Done? {
      var i := LocateRecord(before, request.recordId, request.userId).value;
      FindIndexUpdate(before, RecordMatch(request.recordId, request.userId), i, first.record);
    }
    second := store.ClockOut(request, now2);
  }

  function HistoryFilter(userId: string, startDate: Option<string>, endDate: Option<string>)
    : AttendanceRecord -> bool
  {
    x => InHistory(x, userId, startDate, endDate)
  }

  /** One optional filter stage of `getAttendanceHistory`. */
  function FilterIf(s: seq<AttendanceRecord>, given: bool, p: AttendanceRecord -> bool): seq<AttendanceRecord> {
    if given then Filter(s, p) else s
  }

  function When(given: bool, p: AttendanceRecord -> bool): AttendanceRecord -> bool {
    x => given ==> p(x)
  }

  lemma FilterIfIsFilter(s: seq<AttendanceRecord>, given: bool, p: AttendanceRecord -> bool)
    ensures FilterIf(s, given, p) == Filter(s, When(given, p))
  {
    if given {
      FilterExtensional(s, p, When(given, p));
    }
  }

  function OnDate(date: string): AttendanceRecord -> bool {
    (x: AttendanceRecord) => x.date == date
  }

  function ByUser(userId: string): AttendanceRecord -> bool {
    (x: AttendanceRecord) => x.userId == userId
  }

  function FromDate(startDate: string): AttendanceRecord -> bool {
    (x: AttendanceRecord) => LexLe(startDate, x.date)
  }

  function UntilDate(endDate: string): AttendanceRecord -> bool {
    (x: AttendanceRecord) => LexLe(x.date, endDate)
  }

  /** The three filters of `getAttendanceHistory`, in the source's order. */
  function HistoryStages(records: seq<AttendanceRecord>, userId: string, startDate: Option<string>, endDate: Option<string>)
    : (r: seq<AttendanceRecord>)
    ensures |r| <= |records|
    ensures forall x :: x in r ==> x in records && x.userId == userId
    ensures forall x :: x in r && Given(startDate) ==> LexLe(startDate.value, x.date)
    ensures forall x :: x in r && Given(endDate) ==> LexLe(x.date, endDate.value)
  {
    FilterIf(FilterIf(Filter(records, ByUser(userId)), Given(startDate), FromDate(startDate.GetOr(""))),
             Given(endDate), UntilDate(endDate.GetOr("")))
  }

  /** The three filters of `getAttendanceHistory` amount to one. */
  lemma HistoryFilters(records: seq<AttendanceRecord>, userId: string, startDate: Option<string>, endDate: Option<string>)
    ensures HistoryStages(records, userId, startDate, endDate) == Filter(records, HistoryFilter(userId, startDate, endDate))
  {
    var pu := ByUser(userId);
    var ps := When(Given(startDate), FromDate(startDate.GetOr("")));
    var pe := When(Given(endDate), UntilDate(endDate.GetOr("")));
    var a := Filter(records, pu);
    FilterIfIsFilter(a, Given(startDate), FromDate(startDate.GetOr("")));
    var b := Filter(a, ps);
    FilterIfIsFilter(b, Given(endDate), UntilDate(endDate.GetOr("")));
    FilterFilter(records, pu, ps);
    FilterFilter(records, And(pu, ps), pe);
    FilterExtensional(records, And(And(pu, ps), pe), HistoryFilter(userId, startDate, endDate));
  }
}
