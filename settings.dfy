/** The settings page's state: four sections of fields, the handler that
    replaces one field of one section, and the work-day toggle. */
module Settings {
  import opened Seqs

  datatype WorkHours = WorkHours(startTime: string, endTime: string, workDays: seq<string>, lunchBreakDuration: int)
  datatype Geofencing = Geofencing(enabled: bool, enforceForClockIn: bool, enforceForClockOut: bool, radiusMeters: int)
  datatype Notifications = Notifications(
    lateArrivalAlerts: bool, earlyDepartureAlerts: bool, missingClockOutAlerts: bool, overtimeAlerts: bool)
  datatype Security = Security(requireLocationAccess: bool, enforceIPRestriction: bool, requirePhotoVerification: bool)

  datatype SettingsState = SettingsState(
    workHours: WorkHours, geofencing: Geofencing, notifications: Notifications, security: Security)

  /** The state the page starts from. */
  const InitialSettings := SettingsState(
    WorkHours("09:00", "17:00", ["monday", "tuesday", "wednesday", "thursday", "friday"], 60),
    Geofencing(true, true, false, 100),
    Notifications(true, true, true, true),
    Security(true, false, false))

  lemma InitialValues()
    ensures InitialSettings.workHours.startTime == "09:00" && InitialSettings.workHours.endTime == "17:00"
    ensures |InitialSettings.workHours.workDays| == 5 && "saturday" !in InitialSettings.workHours.workDays &&
            "sunday" !in InitialSettings.workHours.workDays
    ensures InitialSettings.workHours.lunchBreakDuration == 60 && InitialSettings.geofencing.radiusMeters == 100
  {
  }

  // ------------------------------------------------------- field updates

  /** The fields of each section, each carrying its new value. */
  datatype WorkHoursField = StartTime(s: string) | EndTime(e: string) | WorkDays(days: seq<string>) | LunchBreakDuration(minutes: int)
  datatype GeofencingField = Enabled(on: bool) | EnforceForClockIn(inOn: bool) | EnforceForClockOut(outOn: bool) | RadiusMeters(metres: int)
  datatype NotificationsField = LateArrivalAlerts(late: bool) | EarlyDepartureAlerts(early: bool) |
                                MissingClockOutAlerts(missing: bool) | OvertimeAlerts(overtime: bool)
  datatype SecurityField = RequireLocationAccess(location: bool) | EnforceIPRestriction(ip: bool) |
                           RequirePhotoVerification(photo: bool)

  /** Whether a section's field has the value the change carries. */
  predicate HoldsWorkHours(w: WorkHours, f: WorkHoursField) {
    match f
    case StartTime(v) => w.startTime == v
    case EndTime(v) => w.endTime == v
    case WorkDays(v) => w.workDays == v
    case LunchBreakDuration(v) => w.lunchBreakDuration == v
  }

  /** Two sections agree on every field other than the one `f` names. */
  predicate WorkHoursAgreeBesides(a: WorkHours, b: WorkHours, f: WorkHoursField) {
    (!f.StartTime? ==> a.startTime == b.startTime) && (!f.EndTime? ==> a.endTime == b.endTime) &&
    (!f.WorkDays? ==> a.workDays == b.workDays) &&
    (!f.LunchBreakDuration? ==> a.lunchBreakDuration == b.lunchBreakDuration)
  }

  predicate HoldsGeofencing(g: Geofencing, f: GeofencingField) {
    match f
    case Enabled(v) => g.enabled == v
    case EnforceForClockIn(v) => g.enforceForClockIn == v
    case EnforceForClockOut(v) => g.enforceForClockOut == v
    case RadiusMeters(v) => g.radiusMeters == v
  }

  predicate GeofencingAgreeBesides(a: Geofencing, b: Geofencing, f: GeofencingField) {
    (!f.Enabled? ==> a.enabled == b.enabled) && (!f.EnforceForClockIn? ==> a.enforceForClockIn == b.enforceForClockIn) &&
    (!f.EnforceForClockOut? ==> a.enforceForClockOut == b.enforceForClockOut) &&
    (!f.RadiusMeters? ==> a.radiusMeters == b.radiusMeters)
  }

  predicate HoldsNotifications(n: Notifications, f: NotificationsField) {
    match f
    case LateArrivalAlerts(v) => n.lateArrivalAlerts == v
    case EarlyDepartureAlerts(v) => n.earlyDepartureAlerts == v
    case MissingClockOutAlerts(v) => n.missingClockOutAlerts == v
    case OvertimeAlerts(v) => n.overtimeAlerts == v
  }

  predicate NotificationsAgreeBesides(a: Notifications, b: Notifications, f: NotificationsField) {
    (!f.LateArrivalAlerts? ==> a.lateArrivalAlerts == b.lateArrivalAlerts) &&
    (!f.EarlyDepartureAlerts? ==> a.earlyDepartureAlerts == b.earlyDepartureAlerts) &&
    (!f.MissingClockOutAlerts? ==> a.missingClockOutAlerts == b.missingClockOutAlerts) &&
    (!f.OvertimeAlerts? ==> a.overtimeAlerts == b.overtimeAlerts)
  }

  predicate HoldsSecurity(s: Security, f: SecurityField) {
    match f
    case RequireLocationAccess(v) => s.requireLocationAccess == v
    case EnforceIPRestriction(v) => s.enforceIPRestriction == v
    case RequirePhotoVerification(v) => s.requirePhotoVerification == v
  }

  predicate SecurityAgreeBesides(a: Security, b: Security, f: SecurityField) {
    (!f.RequireLocationAccess? ==> a.requireLocationAccess == b.requireLocationAccess) &&
    (!f.EnforceIPRestriction? ==> a.enforceIPRestriction == b.enforceIPRestriction) &&
    (!f.RequirePhotoVerification? ==> a.requirePhotoVerification == b.requirePhotoVerification)
  }

  /** `handleWorkHoursChange(field, value)`. */
  function WorkHoursChange(s: SettingsState, f: WorkHoursField): (r: SettingsState)
    ensures HoldsWorkHours(r.workHours, f) && WorkHoursAgreeBesides(r.workHours, s.workHours, f)
    ensures r.geofencing == s.geofencing && r.notifications == s.notifications && r.security == s.security
  {
    var w := s.workHours;
    var w' := match f
      case StartTime(v) => w.(startTime := v)
      case EndTime(v) => w.(endTime := v)
      case WorkDays(v) => w.(workDays := v)
      case LunchBreakDuration(v) => w.(lunchBreakDuration := v);
    s.(workHours := w')
  }

  /** `handleGeofencingChange(field, value)`. */
  function GeofencingChange(s: SettingsState, f: GeofencingField): (r: SettingsState)
    ensures HoldsGeofencing(r.geofencing, f) && GeofencingAgreeBesides(r.geofencing, s.geofencing, f)
    ensures r.workHours == s.workHours && r.notifications == s.notifications && r.security == s.security
  {
    var g := s.geofencing;
    var g' := match f
      case Enabled(v) => g.(enabled := v)
      case EnforceForClockIn(v) => g.(enforceForClockIn := v)
      case EnforceForClockOut(v) => g.(enforceForClockOut := v)
      case RadiusMeters(v) => g.(radiusMeters := v);
    s.(geofencing := g')
  }

  /** `handleNotificationsChange(field, value)`. */
  function NotificationsChange(s: SettingsState, f: NotificationsField): (r: SettingsState)
    ensures HoldsNotifications(r.notifications, f) && NotificationsAgreeBesides(r.notifications, s.notifications, f)
    ensures r.workHours == s.workHours && r.geofencing == s.geofencing && r.security == s.security
  {
    var n := s.notifications;
    var n' := match f
      case LateArrivalAlerts(v) => n.(lateArrivalAlerts := v)
      case EarlyDepartureAlerts(v) => n.(earlyDepartureAlerts := v)
      case MissingClockOutAlerts(v) => n.(missingClockOutAlerts := v)
      case OvertimeAlerts(v) => n.(overtimeAlerts := v);
    s.(notifications := n')
  }

  /** `handleSecurityChange(field, value)`. */
  function SecurityChange(s: SettingsState, f: SecurityField): (r: SettingsState)
    ensures HoldsSecurity(r.security, f) && SecurityAgreeBesides(r.security, s.security, f)
    ensures r.workHours == s.workHours && r.geofencing == s.geofencing && r.notifications == s.notifications
  {
    var c := s.security;
    var c' := match f
      case RequireLocationAccess(v) => c.(requireLocationAccess := v)
      case EnforceIPRestriction(v) => c.(enforceIPRestriction := v)
      case RequirePhotoVerification(v) => c.(requirePhotoVerification := v);
    s.(security := c')
  }

  /** Setting a field to the value it already has changes nothing, and a
      second change of the same field overrides the first. */
  lemma WorkHoursChangeLaws(s: SettingsState, f: WorkHoursField, g: WorkHoursField)
    ensures HoldsWorkHours(s.workHours, f) ==> WorkHoursChange(s, f) == s
    ensures f.StartTime? == g.StartTime? && f.EndTime? == g.EndTime? && f.WorkDays? == g.WorkDays? ==>
              WorkHoursChange(WorkHoursChange(s, f), g) == WorkHoursChange(s, g)
  {
  }

  /** Changes of different fields commute. */
  lemma GeofencingChangesCommute(s: SettingsState, f: GeofencingField, g: GeofencingField)
    requires !(f.Enabled? && g.Enabled?) && !(f.EnforceForClockIn? && g.EnforceForClockIn?) &&
             !(f.EnforceForClockOut? && g.EnforceForClockOut?) && !(f.RadiusMeters? && g.RadiusMeters?)
    ensures GeofencingChange(GeofencingChange(s, f), g) == GeofencingChange(GeofencingChange(s, g), f)
  {
  }

  // ---------------------------------------------------------- work days

  function IsNot(day: string): string -> bool {
    (d: string) => d != day
  }

  /** `handleWorkDayToggle`: a listed day is removed, every occurrence of
      it; an unlisted one is appended. */
  function ToggleWorkDay(s: SettingsState, day: string): (r: SettingsState)
    ensures day in s.workHours.workDays ==> r.workHours.workDays == Filter(s.workHours.workDays, IsNot(day))
    ensures day !in s.workHours.workDays ==> r.workHours.workDays == s.workHours.workDays + [day]
    ensures day in r.workHours.workDays <==> day !in s.workHours.workDays
    ensures forall d :: d != day ==> (d in r.workHours.workDays <==> d in s.workHours.workDays)
    ensures WorkHoursAgreeBesides(r.workHours, s.workHours, WorkDays(r.workHours.workDays))
    ensures r.geofencing == s.geofencing && r.notifications == s.notifications && r.security == s.security
  {
    var days := s.workHours.workDays;
    if day in days then WorkHoursChange(s, WorkDays(Filter(days, IsNot(day))))
    else WorkHoursChange(s, WorkDays(days + [day]))
  }

  /** Toggling an unlisted day twice gives back the original list. */
  lemma ToggleTwiceRestores(s: SettingsState, day: string)
    requires day !in s.workHours.workDays
    ensures ToggleWorkDay(ToggleWorkDay(s, day), day) == s
  {
    var days := s.workHours.workDays;
    FilterAppend(days, day, IsNot(day));
    FilterKeepsAll(days, IsNot(day));
  }

  /** Toggling a listed day keeps the other days in their order. */
  lemma ToggleKeepsOrder(s: SettingsState, day: string)
    ensures IsSubsequence(Filter(s.workHours.workDays, IsNot(day)), s.workHours.workDays)
    ensures day in s.workHours.workDays ==> IsSubsequence(ToggleWorkDay(s, day).workHours.workDays, s.workHours.workDays)
  {
    FilterIsSubsequence(s.workHours.workDays, IsNot(day));
  }
}
