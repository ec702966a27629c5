# HereNow attendance core, modelled in Dafny

HereNow is a web application for employee attendance. Employees clock in
and out from a browser, and the office geofences decide whether a clock-in
gets a "Location outside of allowed area" note. Administrators see a
dashboard, per-employee details with a chart and a spreadsheet export,
searchable tables, department and weekday reports, and a settings page.

This project models the part of the application that computes things:

- the in-memory attendance store and its service operations:
  - clock-in and clock-out;
  - the geofence check;
  - the current-status, history, summary and all-attendance queries;
- the mock user directory;
- the small deterministic computations of the admin pages:
  - the dashboard figures;
  - the report aggregations;
  - the employee chart map and the export guard;
  - the two search filters and the count label;
  - the export row mapping;
  - the settings handlers;
  - the toast list.

Each operation is stated against the source's own behaviour. Where the
source updates state in place, the model is imperative:

- The store is a class whose `records` field the clock methods reassign.
- The geofence check is a loop.
- The report and chart aggregations are loops that fill maps record by
  record.

Each imperative member is proved against a stated specification:

- `IsLocationAllowed` against the existential `InsideAnyFence`: some fence
  holds the location within its radius.
- `ClockIn` and `ClockOut` by equations that give the new `records`
  sequence in terms of the old one, with the class invariant kept.
- The department and weekday loops against the recursive figures of the
  records seen (`DepartmentHours`, `DepartmentEmployees`, `DayCount`,
  `DayHours`). Separate lemmas equate those figures with the plain reading
  over a filter.
- The chart loop (`FillDateMap`, `ChartData`) against `ChartLabels` and
  `LatestHours`.

Pure pipelines are functions with contracts, and lemmas relate them.

Encodings:

- Times are integer milliseconds.
- `totalHours` is an integer number of hundredths of an hour, so two-decimal
  rounding is exact integer rounding.
- Dates are `yyyy-MM-dd` strings, compared lexicographically (`Text.LexLe`)
  as JavaScript compares strings.
- JavaScript truthiness of optional strings and numbers is written out
  (`Given`, `HasHours`, `TruthyHours`).
- These are parameters of the operations that use them:
  - the current time and today's date;
  - local hour, minute and weekday of a time or date;
  - the `'MMM dd'` label of a date;
  - the Haversine distance.

Files:

| file | module | what it holds |
|---|---|---|
| seqs.dfy | `Seqs` | `Option`, filter, find, dedup and image over sequences, with their laws |
| text.dfy | `Text` | ASCII case mapping, `trim` blankness, `includes`, first-occurrence `replace`, `String(n)`, string order |
| user_types.dfy | `UserTypes` | `User`, `Role`, `GeoFence` |
| attendance_types.dfy | `AttendanceTypes` | records, requests, status, summary |
| users.dfy | `UserService` | the mock directory and its lookups |
| attendance.dfy | `AttendanceService` | fences, rounding, the summary, and the `AttendanceStore` class |
| dashboard.dfy | `Dashboard` | the admin dashboard figures |
| reports.dfy | `Reports` | date-range filter, department stats, weekday table |
| employee_details.dfy | `EmployeeDetails` | chart map and export guard |
| attendance_table.dfy | `AttendanceTable` | record search, name and department lookups |
| employee_list.dfy | `EmployeeList` | employee search and the count label |
| export.dfy | `Export` | export rows |
| settings.dfy | `Settings` | settings state, section handlers, work-day toggle |
| toaster.dfy | `Toaster` | toast list add and remove |

In these places the code behaves in ways a reader might not expect, and the
model follows the code:

- `clockIn` stamps the record with `new Date()`. It never reads the
  `timestamp` field of its `ClockInRequest` argument, so `ClockIn` takes
  `now` and has no timestamp input.
- `clockIn` does not look for an open record of the user before adding one;
  its comment says the demo allows the clock-in regardless. A location
  outside every fence only adds a note. `ClockInTwice` states this.
- `clockOut` finds the first record with the given id and user and fails if
  that record is not clocked in. It does not search on for a clocked-in one.
- The export's department column is `user?.department || 'Unknown'`, so an
  empty department also reads 'Unknown'. The attendance table's
  `getUserDepartment` keeps an empty department.
- The dashboard's absence figure is a plain difference. It goes negative when
  users outside the employee list have records of today
  (`Dashboard.AbsenceCanBeNegative`).

## Model

| member | source | states |
|---|---|---|
| AttendanceService.IsLocationAllowed | src/services/attendanceService.ts:113-126 | the loop answers true exactly when some fence is within its radius of the location; false for an empty fence list |
| AttendanceService.FenceOrderIrrelevant | src/services/attendanceService.ts:113-126 | reordering the fence list does not change the answer |
| AttendanceService.CentreIsInside | src/services/attendanceService.ts:121 | a location at a fence's centre is allowed, whatever its reported accuracy, when the distance of a point to itself is zero |
| AttendanceService.RoundedHours | src/services/attendanceService.ts:171-179 | elapsed milliseconds become hundredths of an hour within half a hundredth; non-negative for non-negative time; exact for whole hundredths |
| AttendanceService.RoundedHoursOdd | src/services/attendanceService.ts:179 | rounding is symmetric about zero, as `toFixed` is |
| AttendanceService.RoundedHoursMonotone | src/services/attendanceService.ts:179 | a longer shift never gets fewer hours |
| AttendanceService.Average | src/services/attendanceService.ts:221 | the average times the count is the total; zero when there is nothing to average |
| AttendanceService.TruthyHours | src/pages/admin/ReportsPage.tsx:81-83 | skipping a null or zero total adds the same as `totalHours \|\| 0` |
| AttendanceService.SumHours | src/services/attendanceService.ts:220 | records without hours add nothing; non-negative hours sum to a non-negative total |
| AttendanceService.IsLateArrival | src/services/attendanceService.ts:224-228 | with minutes in range, late exactly when the clock-in is at least 555 minutes (9:15) after midnight |
| AttendanceService.IsEarlyDeparture | src/services/attendanceService.ts:231-235 | early exactly when there is a clock-out before 17:00 (under 1020 minutes after midnight); a record without clock-out is never early |
| AttendanceService.SumHoursAppend | src/services/attendanceService.ts:220 | one more record adds its truthy hours to the sum |
| AttendanceService.SumHoursConcat | src/services/attendanceService.ts:220 | the sum over a concatenation is the sum of the parts |
| AttendanceService.SumHoursOfCompleted | src/pages/admin/AdminDashboard.tsx:36-37 | summing only the clocked-out records gives the same hours as summing all |
| AttendanceService.Summarize | src/services/attendanceService.ts:219-235 | days are the records; hours their truthy sum; average over days or 0; late and early counts are the records clocking in at or after 9:15 and out before 17:00, each at most the days; SummarizeConcat relates it across concatenations |
| AttendanceService.SummarizeConcat | src/services/attendanceService.ts:219-235 | days, hours, late and early counts of a concatenation add up part by part |
| AttendanceService.IdsDistinct | src/services/attendanceService.ts:137 | with ids numbered by position, two records never share an id |
| AttendanceService.InitialHoursConsistent | src/services/attendanceService.ts:12-64 | the demo records are numbered 1..n and each total is the rounded time between its clock-in and clock-out |
| AttendanceService.AttendanceStore.constructor | src/services/attendanceService.ts:12-64 | the store starts with the demo records and satisfies its invariant |
| AttendanceService.AttendanceStore.ClockIn | src/services/attendanceService.ts:128-153 | appends exactly one record with id length+1, the user, now, today, the request's coordinates, clocked in, no clock-out, no hours, and the outside-area note exactly when no fence contains the location; the user then has a current record |
| AttendanceService.AttendanceStore.ClockOut | src/services/attendanceService.ts:155-183 | no match by id and user: fails, store unchanged; first match not clocked in: fails, store unchanged; otherwise only that record changes, gaining clock-out time, location, rounded hours and the clocked-out status |
| AttendanceService.AttendanceStore.CurrentStatus | src/services/attendanceService.ts:185-192 | the first record of the user that is of today and clocked in, or none exactly when no such record exists |
| AttendanceService.AttendanceStore.History | src/services/attendanceService.ts:194-210 | exactly the user's records within the bounds that are given, in store order |
| AttendanceService.AttendanceStore.Summary | src/services/attendanceService.ts:212-244 | the summary of the user's history in the range; its days and hours are that history's, its late and early counts at most its days |
| AttendanceService.AttendanceStore.AllAttendance | src/services/attendanceService.ts:265-275 | every record when no date is given, else exactly those of that date, each with its multiplicity, in order |
| AttendanceService.ClockInTwice | src/services/attendanceService.ts:128-153 | two clock-ins by one user on one day both succeed with distinct ids |
| AttendanceService.ClockOutTwice | src/services/attendanceService.ts:164-180 | a second clock-out of a closed record fails as not clocked in; a failed one fails again the same way |
| AttendanceService.HistoryStages | src/services/attendanceService.ts:199-207 | no more records than given, each of the user and within each bound that is given |
| AttendanceService.FilterIfIsFilter | src/services/attendanceService.ts:201-207 | a filter applied only when its bound is given is a filter by the guarded predicate |
| AttendanceService.HistoryFilters | src/services/attendanceService.ts:199-207 | the three successive filters equal one filter by the conjunction |
| UserService.FindUser | src/services/userService.ts:71 | the first user with the id, or none exactly when no user has it |
| UserService.FindUserUnique | src/services/userService.ts:71 | with distinct ids the lookup returns the user carrying the id |
| UserService.GetAllUsers | src/services/userService.ts:66-68 | the whole directory in its order |
| UserService.GetUserById | src/services/userService.ts:70-73 | a directory user with the id, present exactly when one exists |
| UserService.GetEmployees | src/services/userService.ts:75-78 | exactly the employee-role users, in directory order |
| UserService.MockUserIdsDistinct | src/services/userService.ts:4-55 | the mock directory's ids are pairwise distinct |
| UserService.EmployeesExcludeAdmin | src/services/userService.ts:75-78 | the administrator is not an employee; the employees are the other four users |
| Dashboard.PresentUsers | src/pages/admin/AdminDashboard.tsx:32 | exactly the user ids having a record today, no more than there are records |
| Dashboard.DashboardStats | src/pages/admin/AdminDashboard.tsx:31-38 | employees counted; present counts distinct users; absent is the unclamped difference; average over records with hours, 0 when none |
| Dashboard.PresentOnce | src/pages/admin/AdminDashboard.tsx:32-33 | for any employee list, a further record of a user already present changes neither presence nor absence |
| Dashboard.NewUserPresent | src/pages/admin/AdminDashboard.tsx:32-33 | a record of a new user raises presence and lowers absence by one |
| Dashboard.AbsenceCanBeNegative | src/pages/admin/AdminDashboard.tsx:33 | absence is not clamped at zero |
| Dashboard.NoCompletedNoAverage | src/pages/admin/AdminDashboard.tsx:36-38 | with no clocked-out record the average is 0 |
| Reports.ReportRecords | src/pages/admin/ReportsPage.tsx:51-53 | exactly the records with start <= date <= end by string order, each with its multiplicity, in order |
| Reports.WhereAsFilter | src/pages/admin/ReportsPage.tsx:71-110 | the running count, truthy hours and user set of the loops equal the length, hour sum and user ids of the filtered records |
| Reports.WhereBounds | src/pages/admin/ReportsPage.tsx:71-110 | no more distinct users than records kept; no users exactly when no records; no records, no hours |
| Reports.DepartmentHoursAsFilter | src/pages/admin/ReportsPage.tsx:79-83 | a department's hours are the truthy hours of the records of its users |
| Reports.DepartmentEmployeesAsImage | src/pages/admin/ReportsPage.tsx:80 | a department's employees are the distinct user ids among its records |
| Reports.UnseenDepartment | src/pages/admin/ReportsPage.tsx:71-85 | a department no record resolves to has no hours and no employees |
| Reports.NamesStep | src/pages/admin/ReportsPage.tsx:75-76 | a record of a resolved user adds its department to the listing only when new |
| Reports.KnownDepartmentStep | src/pages/admin/ReportsPage.tsx:79-83 | a record of a known department updates only that entry, to the figures including the record |
| Reports.NewDepartmentStep | src/pages/admin/ReportsPage.tsx:75-83 | a record of a new department appends it and creates its entry with the record's figures |
| Reports.DepartmentFigures | src/pages/admin/ReportsPage.tsx:75-83 | the entry found or created, plus the record's user and truthy hours, gives the department's new figures |
| Reports.UnknownDepartmentStep | src/pages/admin/ReportsPage.tsx:72-73 | a record whose user is not found changes neither listing nor map |
| Reports.AddToDepartment | src/pages/admin/ReportsPage.tsx:71-85 | one iteration of the department loop keeps the map equal to the figures of the records seen |
| Reports.CollectDepartments | src/pages/admin/ReportsPage.tsx:69-85 | after the loop the map holds every department's hours and employees, keyed in first-occurrence order |
| Reports.DepartmentEntry | src/pages/admin/ReportsPage.tsx:87-92 | the department's name, the hours and distinct users of its records, never more users than records; with users the average is hours over users, without them hours and average are 0 |
| Reports.EntryFromMap | src/pages/admin/ReportsPage.tsx:87-92 | a map entry projects to the department's statistics |
| Reports.ListDepartments | src/pages/admin/ReportsPage.tsx:87-92 | one statistic per listed name, in order, with hours, employee count, and average or 0 |
| Reports.DepartmentStats | src/pages/admin/ReportsPage.tsx:67-92 | departments in first-occurrence order, each with its hours, distinct employees and average hours per employee or 0 |
| Reports.UnknownUsersIgnored | src/pages/admin/ReportsPage.tsx:72-73 | records of unknown users change no department statistic |
| Reports.DayFiguresAsFilter | src/pages/admin/ReportsPage.tsx:99-110 | a weekday's count and hours are the length and hour sum of the records on that day |
| Reports.DayStep | src/pages/admin/ReportsPage.tsx:99-110 | one record adds one to its weekday's count and its truthy hours to its hours, and nothing to other days |
| Reports.WeekCountIsLength | src/pages/admin/ReportsPage.tsx:99-110 | every record falls on exactly one weekday |
| Reports.AddToDay | src/pages/admin/ReportsPage.tsx:100-109 | one iteration of the weekday loop keeps the map equal to the figures of the records seen |
| Reports.DayEntry | src/pages/admin/ReportsPage.tsx:114-122 | the day's name, the number and hours of its records; with records the average is hours over count, without them hours and average are 0 |
| Reports.CountSumPrefix | src/pages/admin/ReportsPage.tsx:114-122 | the count sum of a table prefix grows by the next day's count |
| Reports.CountSumOfWeek | src/pages/admin/ReportsPage.tsx:113-122 | the seven counts sum to the number of records |
| Reports.WeekdayStats | src/pages/admin/ReportsPage.tsx:96-122 | exactly seven entries Mon..Sun, each with its count, hours and average or 0; zero-filled without records; counts sum to the records |
| EmployeeDetails.DrawnLabels | src/pages/admin/EmployeeDetails.tsx:129-134 | no more labels than records; ChartLabelsDrawn and DrawnStep state which labels it lists |
| EmployeeDetails.DrawnStep | src/pages/admin/EmployeeDetails.tsx:130-132 | a record adds its label only when it has non-zero hours |
| EmployeeDetails.LatestStep | src/pages/admin/EmployeeDetails.tsx:132 | a drawn record becomes its label's latest hours; others leave it |
| EmployeeDetails.DateMapStep | src/pages/admin/EmployeeDetails.tsx:130-132 | a drawn record sets its label's entry, adding the label once when new |
| EmployeeDetails.DateMapSkip | src/pages/admin/EmployeeDetails.tsx:130 | a record without hours changes nothing |
| EmployeeDetails.AddToChart | src/pages/admin/EmployeeDetails.tsx:129-134 | one iteration keeps the map equal to the latest hours of the records seen |
| EmployeeDetails.ChartLabels | src/pages/admin/EmployeeDetails.tsx:129-136 | exactly the drawn labels, each once, no more than the records |
| EmployeeDetails.LatestHours | src/pages/admin/EmployeeDetails.tsx:132 | the hours kept for a label are never zero |
| EmployeeDetails.FillDateMap | src/pages/admin/EmployeeDetails.tsx:127-134 | after the loop the map holds, for each charted label in insertion order, its latest hours |
| EmployeeDetails.ChartData | src/pages/admin/EmployeeDetails.tsx:125-140 | one point per distinct label in first-appearance order, no more than the records, each with the hours of its label's last drawn record |
| EmployeeDetails.ChartLabelsDrawn | src/pages/admin/EmployeeDetails.tsx:130-131 | a label is charted exactly when some record with non-zero hours has it |
| EmployeeDetails.LatestHoursIsLast | src/pages/admin/EmployeeDetails.tsx:131-132 | a label's hours come from its last drawn record, never zero, and are absent exactly when no drawn record has it |
| EmployeeDetails.ExportData | src/pages/admin/EmployeeDetails.tsx:73-79 | nothing exported without an employee or without records; else one row per record against that employee |
| EmployeeDetails.ExportNamesEmployee | src/pages/admin/EmployeeDetails.tsx:76-79 | the employee's own records export with the employee's name |
| AttendanceTable.GetUserName | src/components/admin/EmployeeAttendanceTable.tsx:67-70 | "first last" of the user found, else "Unknown" |
| AttendanceTable.GetUserDepartment | src/components/admin/EmployeeAttendanceTable.tsx:72-75 | the department of the user found, else "Unknown" |
| AttendanceTable.FilterRecords | src/components/admin/EmployeeAttendanceTable.tsx:45-65 | a blank term keeps all; else exactly the records with a known user whose names, department or status contain the lower-cased, untrimmed term, each with its multiplicity; order kept |
| AttendanceTable.SpaceSurvivesContains | src/components/admin/EmployeeAttendanceTable.tsx:51-60 | a term containing a space matches only text containing a space |
| AttendanceTable.NoSpaceNoContains | src/components/admin/EmployeeAttendanceTable.tsx:51-60 | text without a space never contains a term with one |
| AttendanceTable.StatusHasNoSpace | src/components/admin/EmployeeAttendanceTable.tsx:60 | no status name contains a space |
| AttendanceTable.NoSpaceNoMatch | src/components/admin/EmployeeAttendanceTable.tsx:51-61 | with space-free names and departments, a term with a space matches no record |
| AttendanceTable.SpacesAreSearched | src/components/admin/EmployeeAttendanceTable.tsx:46-62 | since the term is not trimmed, a non-blank term with a space finds nothing among space-free users |
| EmployeeList.FilterEmployees | src/components/admin/EmployeeListTable.tsx:35-52 | a blank term keeps all; else exactly the employees whose names, department, position or email contain the lower-cased term, each with its multiplicity; order kept |
| EmployeeList.MatchingEveryoneKeepsAll | src/components/admin/EmployeeListTable.tsx:41-49 | a term every employee matches keeps the whole list |
| EmployeeList.Noun | src/components/admin/EmployeeListTable.tsx:72 | singular exactly when the count is 1 |
| EmployeeList.CountLabel | src/components/admin/EmployeeListTable.tsx:72 | the count's digits, a space, the noun and " total" |
| EmployeeList.CountLabelReadsBack | src/components/admin/EmployeeListTable.tsx:72 | the label's leading digits read back as the count: the inverse of the label |
| EmployeeList.CountLabelInjective | src/components/admin/EmployeeListTable.tsx:72 | different counts give different labels |
| Export.ExportName | src/services/exportService.ts:21-27 | "first last" of the user found, else "Unknown" exactly when no user has the id |
| Export.ExportDepartment | src/services/exportService.ts:28 | "Unknown" exactly when no user is found or the department is empty or "Unknown"; else the department |
| Export.ExportHours | src/services/exportService.ts:31 | 'N/A' exactly when the hours are null or zero; else the hours |
| Export.ExportStatus | src/services/exportService.ts:32 | the status keeps its length; ExportStatusNames states its four values |
| Export.ExportStatusNames | src/services/exportService.ts:32 | the four statuses export as CLOCKED IN, CLOCKED OUT, BREAK and PENDING |
| Export.ExportClockedIn | src/services/exportService.ts:32 | clocked_in exports as CLOCKED IN |
| Export.ExportClockedOut | src/services/exportService.ts:32 | clocked_out exports as CLOCKED OUT |
| Export.ExportBreak | src/services/exportService.ts:32 | break exports as BREAK |
| Export.ExportPending | src/services/exportService.ts:32 | pending exports as PENDING |
| Export.UnderscoreReplaced | src/services/exportService.ts:32 | the underscore of the two clock statuses becomes a space |
| Export.ReplacedIn | src/services/exportService.ts:32 | clocked_in becomes "clocked in" |
| Export.ReplacedOut | src/services/exportService.ts:32 | clocked_out becomes "clocked out" |
| Export.UpperSpelling | src/services/exportService.ts:32 | the two spaced names upper-case as expected |
| Export.ExportStatusInjective | src/services/exportService.ts:32 | different statuses export differently |
| Export.ExportRowOf | src/services/exportService.ts:21-34 | a row keeps the record's date and clock-in; clock-out 'N/A' exactly while open, else its time; hours only the record's own; the status keeps its length; notes empty exactly when absent or empty |
| Export.ExportRowColumns | src/services/exportService.ts:21-33 | the name, department, hours, status and notes columns are ExportName, ExportDepartment, ExportHours, ExportStatus and `notes \|\| ''` of the record |
| Export.PrepareAttendanceForExport | src/services/exportService.ts:16-36 | one row per record, in order, each the row of its record |
| Export.PrepareConcat | src/services/exportService.ts:20 | exporting a concatenation exports the parts in turn |
| Text.Trim | src/components/admin/EmployeeListTable.tsx:36 | `trim` is empty exactly when the string is blank, is no longer than it, and starts and ends with non-white space |
| Text.TrimStart | src/components/admin/EmployeeListTable.tsx:36 | a suffix of the string whose dropped prefix is blank, empty exactly when the string is blank, starting with non-white space |
| Text.TrimEnd | src/components/admin/EmployeeListTable.tsx:36 | a prefix of the string whose dropped suffix is blank, empty exactly when the string is blank, ending with non-white space |
| Text.TrimRemovesBlankEnds | src/components/admin/EmployeeListTable.tsx:36 | `trim` gives the middle of the string, with blank text before and after it |
| Text.Lower | src/components/admin/EmployeeListTable.tsx:41 | same length; each capital becomes its own small letter, no capital is left, and nothing else changes |
| Text.Upper | src/services/exportService.ts:32 | same length; each small letter becomes its own capital, no small letter is left, and nothing else changes |
| Text.Contains | src/components/admin/EmployeeListTable.tsx:44-48 | a contained string is no longer than the text; the empty string is contained everywhere |
| Text.ReplaceFirst | src/services/exportService.ts:32 | same length; only occurrences of the pattern change, to the replacement; at most one changes, and no occurrence precedes it |
| Text.ReplaceFirstSplit | src/services/exportService.ts:32 | a string cut at its first occurrence keeps the text before and after it and has the occurrence replaced |
| Text.ReplaceFirstAt | src/services/exportService.ts:32 | `replace` with a one-character pattern changes only the first occurrence |
| Text.ReplaceFirstAbsent | src/services/exportService.ts:32 | `replace` without an occurrence changes nothing |
| Text.ParseNatToString | src/services/attendanceService.ts:137 | `String(n)` reads back as n |
| Text.NatToString | src/services/attendanceService.ts:137 | `String(n)` is a non-empty string of decimal digits |
| Text.NatToStringInjective | src/services/attendanceService.ts:137 | different store lengths give different record ids |
| Text.LexLe | src/pages/admin/ReportsPage.tsx:52 | a prefix is at or before every string it begins; with different first characters the smaller one comes first |
| Text.LexLeFirstDifference | src/pages/admin/ReportsPage.tsx:52 | at the first position where two dates differ, the one with the smaller character comes first |
| Text.LexLeReflexive | src/pages/admin/ReportsPage.tsx:52 | every date is within a range starting and ending on it |
| Text.LexLeAntisymmetric | src/pages/admin/ReportsPage.tsx:52 | dates on both sides of each other are equal |
| Text.LexLeTransitive | src/pages/admin/ReportsPage.tsx:52 | string order on dates is transitive |
| Text.LexLeTotal | src/pages/admin/ReportsPage.tsx:52 | any two dates are ordered |
| Settings.InitialValues | src/pages/admin/SettingsPage.tsx:10-34 | start 09:00, end 17:00, five weekdays without the weekend, 60-minute lunch, 100 m radius |
| Settings.WorkHoursChange | src/pages/admin/SettingsPage.tsx:36-44 | the named work-hours field takes the value; every other field and section is unchanged |
| Settings.GeofencingChange | src/pages/admin/SettingsPage.tsx:46-54 | the named geofencing field takes the value; every other field and section is unchanged |
| Settings.NotificationsChange | src/pages/admin/SettingsPage.tsx:56-64 | the named notifications field takes the value; every other field and section is unchanged |
| Settings.SecurityChange | src/pages/admin/SettingsPage.tsx:66-74 | the named security field takes the value; every other field and section is unchanged |
| Settings.WorkHoursChangeLaws | src/pages/admin/SettingsPage.tsx:36-44 | setting a field to its value changes nothing; a second change of the field overrides the first |
| Settings.GeofencingChangesCommute | src/pages/admin/SettingsPage.tsx:46-54 | changes of different fields commute |
| Settings.ToggleWorkDay | src/pages/admin/SettingsPage.tsx:76-87 | a listed day is removed, every occurrence; an unlisted day is appended; other days' membership and other sections unchanged |
| Settings.ToggleTwiceRestores | src/pages/admin/SettingsPage.tsx:76-87 | toggling an unlisted day twice restores the list |
| Settings.ToggleKeepsOrder | src/pages/admin/SettingsPage.tsx:79-83 | removing a day keeps the others in order |
| Toaster.AddToast | src/components/ui/Toaster.tsx:36-39 | one toast appended at the end with the id, message and type; duration defaults to 5000 |
| Toaster.RemoveToast | src/components/ui/Toaster.tsx:41-43 | every toast with the id goes, the rest stay in order; an absent id changes nothing |
| Toaster.RemoveIdempotent | src/components/ui/Toaster.tsx:41-43 | removing twice is removing once |
| Toaster.AddThenRemove | src/components/ui/Toaster.tsx:36-43 | adding a toast with a fresh id and removing that id restores the list |

## Left out

- The Haversine `calculateDistance` is floating-point trigonometry. The distance is a function parameter, and only the fence logic over it is proved.
- The simulated API delays and the Promise plumbing are left out. Every service call is synchronous.
- `getWeeklyAttendance` is left out because its output comes from `Math.random`.
- These become parameters:
  - the wall clock (`new Date()`);
  - `toISOString`;
  - local-time `getHours`/`getMinutes`;
  - the date-fns formatting and presets (`'yyyy-MM-dd'`, `'EEE'`, `'MMM dd'`, month ranges).
- AttendanceService.RoundedHours: rounding is to the nearest hundredth with halves away from zero. Exact half-way behaviour of binary `toFixed` is not modelled, and neither are floats in general.
- Averages are exact reals, not IEEE doubles.
- Record times are integers, whereas the source stores ISO strings and re-parses them.
- Text.Lower and Text.Upper map ASCII letters only. Full Unicode case mapping and UTF-16 code units are not modelled.
- Text.LexLe compares characters as code points, whereas JavaScript `<=` compares UTF-16 code units. The two orders differ only outside the Basic Multilingual Plane, never for ASCII dates.
- AttendanceService.AttendanceStore.ClockOut: the source assigns fields of the record object in place. The model replaces the record in the store's sequence, so a copy returned earlier by a query is not updated along with it (aliasing is not modelled).
- Adding the same record object twice, and other sharing between the store and its callers, are outside the model.
- JSX rendering, layouts, routing, badges and the other pages are UI state over these calls, and are left out.
- Network login, localStorage/auth context and browser geolocation are I/O, and are left out.
- `exportToExcel` and `exportAttendanceReport` write XLSX files, and are left out. The clock columns hold the time instead of `toLocaleTimeString` text.
- Toast timers and the auto-dismiss effect are left out. The random toast id is a parameter of `AddToast`.
- Settings: the source's handlers take a field name as a string. The model takes one constructor per field, so a misspelt field name, which the source would add as a new key, is not modelled.
- `handleSaveSettings` and the date-range presets of the details page only set timers or state. They are left out.
