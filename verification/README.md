# WorkHub in Dafny

WorkHub is a daily work-report application. Each member submits, once a
day, yesterday's work (tasks with actual hours, marked completed or not)
and today's plan (tasks with planned hours). Admins see a dashboard of who
has submitted, monthly hour totals per member, and CSV or Google Sheets
exports. A LINE bot reminds members who have not submitted by the morning
deadline. Users can sign in with LINE, or link a LINE account to an
existing account with a six-digit code.

This project models the deterministic core of that application and proves
what it promises. The hosted database becomes one mutable `Store`
(schema.dfy) with three tables held as maps:

- `profiles`: user id → profile;
- `user_identities`: (provider, provider uid) → user id;
- `reports`: (user id, report date) → report.

Whatever lies outside the core becomes a parameter of the operation that
uses it:

- the answers of the database, the auth provider, LINE and the Google
  Sheets API;
- the clock and random numbers;
- JavaScript's number printing (`show`), `encodeURIComponent` (`encode`)
  and HMAC-SHA256 with base64 output (`mac`).

Query results that the application reads in database order are sequences
of rows. The model applies the queries' filters itself, so that what a
result is computed from is part of its contract.

Hours are exact `real`s. Dates are civil `(year, month, day)` triples on the
proleptic Gregorian calendar, with a day number `Ordinal` that orders them.
JavaScript truthiness (`a || b` on numbers, strings and flags) is written out
in values.dfy.

The code is imperative where the source is:

- server actions and routes that write the tables are methods with
  `modifies db`;
- `getDateRange` is a `while` loop;
- the monthly aggregation and the dashboard summary fill a map in a loop;
- the report form's task rows are a class whose methods replace the
  row list.

Everything else (message templates, CSV text, filters, guards,
projections) is functions, with lemmas that relate them.

Modules, one per source file: `Values`, `Text`, `Dates`
(lib/date-utils.ts), `Schema` (types/database.ts), `Reports`
(lib/reports.ts), `ReportActions`, `ReportForm`, `TaskInput`,
`UserReportCard`, `DashboardStats`, `MonthlyHoursList`, `DashboardPage`,
`Line` (lib/line.ts), `LineLoginStart`, `LineCallback`, `LineWebhook`,
`LineLink`, `CronReminder`, `AdminActions`, `ProfileActions`,
`AuthActions`, `ExportCsv`, `ExportSheet`.

## Model

| member | source | states |
|---|---|---|
| Values.OrNum | lib/reports.ts:277 | `n \|\| fallback` is the number when it is present and non-zero, else the fallback |
| Values.OrText | app/dashboard/page.tsx:52 | `s \|\| fallback` is the string when it is present and non-empty, else the fallback |
| Values.OrFalse | components/report/ReportForm.tsx:37 | `b \|\| false` is true exactly when the flag is present and true |
| Values.Round | components/dashboard/DashboardStats.tsx:27 | `Math.round` gives the integer nearest to x, with halves rounded up |
| Values.RoundWithin | components/dashboard/DashboardStats.tsx:26-27 | rounding keeps a value that lies within integer bounds inside them |
| Text.Trim | app/actions/profile.ts:22 | `trim()` is a contiguous slice with no white space at either end |
| Text.TrimEmptyIffBlank | app/actions/profile.ts:22 | a string trims to "" exactly when it is all white space |
| Text.TrimIdempotent | app/actions/profile.ts:28 | trimming twice is trimming once |
| Text.LastSegment | app/api/auth/line/callback/route.ts:42-43 | `split(sep).pop()` holds no separator and is a suffix, all of `s` when `s` has none |
| Text.LastSegmentAfterSeparator | app/api/auth/line/callback/route.ts:42-43 | the text after a last separator is the last segment, whatever comes before it |
| Text.FirstSegment | app/dashboard/page.tsx:52 | `split(sep)[0]` holds no separator and is a prefix, all of `s` when `s` has none |
| Text.Contains | app/api/auth/line/callback/route.ts:179-182 | `includes(sub)` is true exactly when `sub` occurs at some index |
| Text.ContainsMiddle | lib/line.ts:110 | a string written between two others occurs in the result |
| Text.ToLowerAscii | app/api/auth/line/callback/route.ts:121 | lower-casing keeps the length and leaves no ASCII capital letter |
| Text.ToLowerIdempotent | app/api/auth/line/callback/route.ts:121 | lower-casing an already lower-cased id changes nothing |
| Text.Decimal | app/api/line/link/route.ts:43 | `String(n)` is a non-empty string of digits with no leading zero |
| Text.DecimalRoundTrip | app/api/line/link/route.ts:43 | reading back the printed digits gives the number |
| Text.DecimalLength | app/api/line/link/route.ts:43 | a number prints as k digits exactly when it lies in [10^(k-1), 10^k) |
| Text.TrimDigits | app/api/line/webhook/route.ts:60-63 | a string of digits is its own trim |
| Text.Pad2 | lib/date-utils.ts:42-43 | `padStart(2, "0")` of a number below 100 is exactly two digits |
| Text.Pad2Value | lib/date-utils.ts:42-43 | the two digits read back as the number |
| Text.Take | app/api/admin/export-csv/route.ts:62 | `slice(0, n)` is the prefix of length min(n, length) |
| Text.Join | app/api/admin/export-csv/route.ts:50-53 | `join(sep)` of one element is that element |
| Text.JoinSnoc | app/api/admin/export-csv/route.ts:50-53 | joining one more element appends the separator and that element |
| Text.JoinCons | app/api/admin/export-csv/route.ts:50-53 | joining after a head element puts the separator between the head and the rest |
| Text.Split | app/api/admin/export-csv/route.ts:53 | splitting yields at least one piece, and a string without the separator is one piece |
| Text.SplitAt | app/api/admin/export-csv/route.ts:53 | splitting at the first separator gives the piece before it, then the pieces of the rest |
| Text.SplitJoin | app/api/admin/export-csv/route.ts:50-53 | splitting a join at a separator that no piece contains gives the pieces back |
| Dates.DaysInMonth | lib/date-utils.ts:232 | a month has 28 to 31 days, and February has 29 exactly in leap years |
| Dates.LeapCountersStep | lib/date-utils.ts:232 | each leap-year counter steps by one exactly at its multiples |
| Dates.YearStep | lib/date-utils.ts:156 | consecutive year starts lie one year length apart |
| Dates.MonthStep | lib/date-utils.ts:156 | consecutive month starts lie one month length apart, and December ends the year |
| Dates.Next | lib/date-utils.ts:154-158 | the following day is a valid date |
| Dates.NextOrdinal | lib/date-utils.ts:154-158 | the following day is exactly one day number later |
| Dates.NextRollsOver | lib/date-utils.ts:154-158 | a month's last day is followed by the 1st of the next month, and 31 December by 1 January |
| Dates.Prev | lib/date-utils.ts:145-149 | the preceding day is a valid date |
| Dates.PrevOrdinal | lib/date-utils.ts:145-149 | the preceding day is exactly one day number earlier |
| Dates.PrevNext | lib/date-utils.ts:145-158 | the day before the following day is the day itself |
| Dates.NextPrev | lib/date-utils.ts:145-158 | the day after the preceding day is the day itself |
| Dates.OrdinalWithinYear | lib/date-utils.ts:113 | a date's day number lies between the start of its year and the start of the next |
| Dates.MonthWithinYear | lib/date-utils.ts:113 | a month ends no later than its year |
| Dates.YearsIncrease | lib/date-utils.ts:113 | a later year starts no earlier than the end of an earlier one |
| Dates.OrdinalOrder | lib/date-utils.ts:169 | comparing day numbers is comparing by year, then month, then day |
| Dates.MonthsIncrease | lib/date-utils.ts:169 | a later month of the same year starts after an earlier month ends |
| Dates.OrdinalInjective | lib/date-utils.ts:169 | two valid dates with the same day number are the same date |
| Dates.NextN | lib/date-utils.ts:171 | the date n days later is a valid date |
| Dates.NextNOrdinal | lib/date-utils.ts:171 | the date n days later is n day numbers later |
| Dates.PrevN | lib/date-utils.ts:198-209 | the date n days earlier is a valid date |
| Dates.PrevNOrdinal | lib/date-utils.ts:198-209 | the date n days earlier is n day numbers earlier |
| Dates.Format | lib/date-utils.ts:40-45 | `formatDate` is the year's text followed by `-MM-DD`, with its dashes six and three places from the end |
| Dates.FormatFields | lib/date-utils.ts:40-45 | the text begins with the year's text, and the two-digit fields after its dashes read back as the month and the day |
| Dates.FormatShape | lib/date-utils.ts:40-45 | for a four-digit year the text is exactly `YYYY-MM-DD` |
| Dates.Parse | lib/date-utils.ts:50-52 | a text that reads as a date names a valid date |
| Dates.ParseFormat | lib/date-utils.ts:40-52 | formatting and then parsing gives the date back |
| Dates.NextPreviousText | lib/date-utils.ts:145-158 | on the text forms, `getPreviousDate(getNextDate(d))` is d, and so is the converse |
| Dates.MonthRange | lib/date-utils.ts:221-238 | the month range starts on the 1st of d's month, ends on its last day (the next day is another month's 1st), and contains d |
| Dates.FebruaryEnd | lib/date-utils.ts:232 | February's range ends on the 29th exactly in leap years |
| Dates.DaysDifference | lib/date-utils.ts:110-115 | the difference is the distance between the day numbers, and 0 only for equal dates |
| Dates.DaysDifferenceSymmetric | lib/date-utils.ts:110-115 | the difference does not depend on the order of the arguments |
| Dates.DaysDifferenceNextN | lib/date-utils.ts:110-115 | a date is n days away from the date n days after it |
| Dates.CalculateDateRange | lib/date-utils.ts:192-216 | the period ends today and starts 7, 30 or 90 days earlier |
| Dates.DateRange | lib/date-utils.ts:163-175 | the list is the formatted days from start on, one per day up to and including end, and is empty when start is after end |
| Dates.DayTextsAt | lib/date-utils.ts:163-175 | the i-th listed text is the date i days after start, whose day number is start's plus i |
| Dates.DayTextsSnoc | lib/date-utils.ts:168-172 | each loop step appends the current day's text |
| Dates.Weekday | lib/date-utils.ts:71 | `getDay()` lies in 0..6 |
| Dates.FormatWithDay | lib/date-utils.ts:68-73 | the Japanese date is followed by the weekday's name in parentheses |
| Dates.WeekdayNext | lib/date-utils.ts:71 | each following day is the following weekday |
| Dates.WeekdayExamples | lib/date-utils.ts:70-71 | 2026-01-01 and 2024-02-29 are Thursdays, which anchors the weekday count |
| Schema.Store.constructor | types/database.ts:71-107 | a new store is empty, and every row sits under its own key |
| Reports.TaskHours | lib/reports.ts:277 | a task counts its actual hours if truthy, else its planned hours if truthy, else 0 |
| Reports.ZeroActualCountsPlanned | lib/reports.ts:277 | an actual value of 0 is falsy, so the planned hours are counted instead |
| Reports.TotalHours | lib/reports.ts:275-279 | an empty task list totals 0 |
| Reports.TotalHoursAppend | lib/reports.ts:275-279 | the total of two lists read in sequence is the sum of their totals |
| Reports.TotalHoursCons | lib/reports.ts:275-279 | summing from the front gives the reduce's total |
| Reports.TotalHoursNonNegative | lib/reports.ts:275-279 | tasks with non-negative hours give a non-negative total |
| Reports.ReportStatistics | lib/reports.ts:123-161 | zero reports give all zeros; otherwise each total is the sum of `calculateTotalHours` of that list over the reports, each average is its total divided by the count, and `totalTasks` counts both lists |
| Reports.TaskCountAppend | lib/reports.ts:147-151 | two report lists' task count is the sum of their counts |
| Reports.StatisticsOfOne | lib/reports.ts:137-158 | one report's statistics are its own totals, and its average equals its total |
| Reports.SumHoursAppend | lib/reports.ts:137-145 | the yesterday and today hour sums of two report lists are the sums of their own |
| Reports.StatisticsAppend | lib/reports.ts:123-161 | the counts and totals over two report lists together are the sums of each list's |
| Reports.ReportByUserAndDate | lib/reports.ts:45-68 | a report is found exactly when the (user, date) row exists, and it is that row |
| Reports.YesterdayTodayTasks | lib/reports.ts:242-270 | the carried-over plan is the previous day's `today_tasks`, or empty when that report is missing |
| Reports.UserHoursInNone | lib/reports.ts:325-333 | a user without reports in the window has 0 hours |
| Reports.ActiveProfiles | lib/reports.ts:294-298 | `.eq("is_active", true)` keeps exactly the active rows |
| Reports.ActiveProfilesAppend | lib/reports.ts:294-298 | the filter keeps the rows' order |
| Reports.AllUsersMonthlyHours | lib/reports.ts:287-335 | one entry per active profile and none for inactive ones, in the profiles' order, with name and id; each total sums `calculateTotalHours(yesterday_tasks)` over the user's reports dated from next(start) to next(end) |
| Reports.MonthlyWindow | lib/reports.ts:283-307 | a month's window runs from its 2nd day to the 1st of the following month |
| Reports.SummaryFor | lib/reports.ts:376-410 | a summary carries the profile's id, name, email and role and is submitted exactly when there is a report; an unsubmitted one has 0 hours, empty lists and null notes and time |
| Reports.LastReportOn | lib/reports.ts:370-373 | the map keeps a user's report dated `date` exactly when the rows hold one, and it is one of those rows |
| Reports.DashboardSummary | lib/reports.ts:340-413 | one summary per active profile and none for inactive ones, in the profiles' order, each built from the profile and its report of that date |
| Reports.SubmittedIffReport | lib/reports.ts:379-401 | a profile is marked submitted exactly when a report of theirs is dated `date` |
| Reports.SummaryFromStore | lib/reports.ts:370-377 | read from a consistent store, the summary's report is the store's (user, date) row |
| ReportActions.NotesColumn | app/actions/reports.ts:87-109 | empty notes are stored as null, any other notes as written |
| ReportActions.UpsertReport | app/actions/reports.ts:70-120 | an existing (user, date) row is replaced in full, keeping its id and submission time; otherwise one row is inserted; no other row changes and keys stay unique |
| ReportActions.ResubmitReplaces | app/actions/reports.ts:70-120 | submitting twice for a day leaves one row, holding the second submission and the first id |
| ReportActions.SavedPlanIsCarriedOver | app/actions/reports.ts:70-120 | the next day's carry-over is exactly the plan just saved |
| ReportActions.AdminLineIds | app/actions/reports.ts:141-148 | the notice recipients are exactly the LINE ids of admins |
| ReportActions.SubmissionNotice | app/actions/reports.ts:139-151 | a notice is sent exactly when the submitter has a profile, is not an admin, and some admin has a LINE id; it goes to those admins with the notification text |
| ReportActions.SubmitReport | app/actions/reports.ts:27-163 | the guards in order (session, date, JSON, at least one task); a failure writes nothing; success upserts the report whatever the notice does |
| ReportActions.DeleteOwned | app/actions/reports.ts:182-186 | exactly the rows with that id owned by the caller are removed; the rest are unchanged |
| ReportActions.DeleteSparesOthers | app/actions/reports.ts:182-186 | another user's report survives any delete request |
| ReportActions.DeleteReport | app/actions/reports.ts:168-202 | no session or a refused delete changes nothing; otherwise only the caller's rows with that id go |
| ReportActions.MyReport | app/actions/reports.ts:207-240 | the caller's row for the date, or null for no session, no row, or a text that is not a date |
| ReportActions.SubmitThenRead | app/actions/reports.ts:70-120 | what was saved for a date is what the caller reads back |
| ReportForm.FromActual | components/report/ReportForm.tsx:34-38 | a saved yesterday task shows `actual_hours \|\| 0` and `completed \|\| false` |
| ReportForm.FromCarryover | components/report/ReportForm.tsx:40-44 | a carried-over task shows `planned_hours \|\| 0`, not completed |
| ReportForm.FromPlanned | components/report/ReportForm.tsx:48-51 | a saved today task shows `planned_hours \|\| 0` and no completion flag |
| ReportForm.InitialYesterday | components/report/ReportForm.tsx:33-45 | the yesterday rows come from the saved report if any, else from the carry-over, else none |
| ReportForm.InitialToday | components/report/ReportForm.tsx:47-52 | the today rows come from the saved report, else none |
| ReportForm.InitialNotes | components/report/ReportForm.tsx:60 | the notes start as the saved notes when they are non-empty, and as "" when there is no report or its notes are null or empty |
| ReportForm.CarryoverNoticeMeansCarriedRows | components/report/ReportForm.tsx:121 | when the notice shows, the yesterday rows are exactly the carried-over plan |
| ReportForm.ValidTasks | components/report/ReportForm.tsx:68-73 | the kept rows are exactly the rows with a non-blank name and positive hours |
| ReportForm.ValidTasksAppend | components/report/ReportForm.tsx:68-73 | the filter keeps the rows' order |
| ReportForm.Submit | components/report/ReportForm.tsx:75-102 | nothing is sent exactly when neither list has a valid row; a payload holds exactly the valid rows, in order, in their server shapes |
| ReportForm.PayloadNotEmpty | components/report/ReportForm.tsx:75-78 | every payload passes the server's at-least-one-task check |
| ReportForm.ReloadRoundTrip | components/report/ReportForm.tsx:33-101 | reopening the saved report shows the submitted valid rows again |
| TaskInput.HoursValue | components/report/TaskInput.tsx:94-97 | an empty hours field reads as 0, a typed one as its number |
| TaskInput.HoursText | components/report/TaskInput.tsx:64 | a stored 0 shows as an empty field, and the field reads back as the stored number |
| TaskInput.ToFormTask | components/report/TaskInput.tsx:94-97 | the parent receives the name and flag unchanged and the hours as a number |
| TaskInput.ToFormTasks | components/report/TaskInput.tsx:94-97 | one converted task per row, in order |
| TaskInput.InitialRows | components/report/TaskInput.tsx:60-67 | one blank row when there are no initial tasks, else one row per task that converts back to it |
| TaskInput.TotalMatchesForm | components/report/TaskInput.tsx:129-132 | the shown total is the total of the hours the parent receives |
| TaskInput.ApplyEdit | components/report/TaskInput.tsx:75-90 | an edit changes only the named field |
| TaskInput.TaskRows.constructor | components/report/TaskInput.tsx:60-67 | the rows start as the initial rows |
| TaskInput.TaskRows.ChangeTask | components/report/TaskInput.tsx:70-99 | only the row at `index` changes, by the edit, and the parent receives all rows converted |
| TaskInput.TaskRows.AddTask | components/report/TaskInput.tsx:101-110 | one blank row is appended, the others are kept, and the parent receives it as 0 hours |
| TaskInput.TaskRows.RemoveTask | components/report/TaskInput.tsx:112-127 | a single row becomes one blank row; otherwise only index i goes and the order is kept; never fewer than one row |
| TaskInput.AddedRowAddsNothing | components/report/TaskInput.tsx:101-132 | an added blank row leaves the total unchanged |
| UserReportCard.WithCompletion | components/dashboard/UserReportCard.tsx:23-29 | the kept tasks are exactly those with the given completion |
| UserReportCard.ActualHours | components/dashboard/UserReportCard.tsx:35-39 | a task's card hours are `actual_hours \|\| 0` |
| UserReportCard.Figures | components/dashboard/UserReportCard.tsx:18-41 | the submitted and admin flags mirror the summary; carry-over tasks are exactly the yesterday tasks not completed and completed tasks exactly the completed ones, in order; each hour figure is its own list's actual hours, and together they are the list's |
| UserReportCard.Partition | components/dashboard/UserReportCard.tsx:23-41 | carry-over and completed tasks hold every task exactly once, and their hour sums add up |
| UserReportCard.ActualHoursSnoc | components/dashboard/UserReportCard.tsx:34-41 | the reduce adds one task's hours per step |
| UserReportCard.WithCompletionAppend | components/dashboard/UserReportCard.tsx:23-29 | both filters keep the original order |
| UserReportCard.PlannedHoursIgnored | components/dashboard/UserReportCard.tsx:34-41 | a task with no actual hours adds nothing, whatever it planned |
| DashboardStats.WithSubmitted | components/dashboard/DashboardStats.tsx:21-22 | the kept summaries are exactly those with the given flag |
| DashboardStats.SubmittedPartition | components/dashboard/DashboardStats.tsx:20-25 | submitted and not-submitted lists hold each summary exactly once, and their counts add up to the total |
| DashboardStats.WithSubmittedAppend | components/dashboard/DashboardStats.tsx:21-22 | both lists keep the summaries' order |
| DashboardStats.SubmissionRate | components/dashboard/DashboardStats.tsx:26-27 | the rate is 0 for no users, else within 0.5 of 100·submitted/total, in [0, 100], and 100 when all submitted |
| DashboardStats.StatsOf | components/dashboard/DashboardStats.tsx:20-27 | the counts are the lengths of the submitted and not-submitted lists and add up to the number of users; the rate is the rounded percentage of `SubmissionRate`, in [0, 100], 0 for none and 100 when all submitted |
| DashboardStats.AllSubmitted | components/dashboard/DashboardStats.tsx:21 | when everyone has submitted, the submitted list is all of them |
| MonthlyHoursList.Insert | components/dashboard/MonthlyHoursList.tsx:22 | inserting into a sorted list keeps it sorted and adds exactly that entry |
| MonthlyHoursList.AppendBelow | components/dashboard/MonthlyHoursList.tsx:22 | an entry with no more hours than any entry of a sorted list can go last |
| MonthlyHoursList.AboveLast | components/dashboard/MonthlyHoursList.tsx:22 | what is put in front of the last entry has at least its hours |
| MonthlyHoursList.SortByHours | components/dashboard/MonthlyHoursList.tsx:22 | the displayed list is sorted by hours, largest first, and is a permutation of the input |
| MonthlyHoursList.GrandTotal | components/dashboard/MonthlyHoursList.tsx:25 | an empty list totals 0 |
| MonthlyHoursList.GrandTotalSnoc | components/dashboard/MonthlyHoursList.tsx:25 | the reduce adds one entry's hours per step |
| MonthlyHoursList.GrandTotalInsert | components/dashboard/MonthlyHoursList.tsx:25 | inserting an entry adds its hours to the total |
| MonthlyHoursList.GrandTotalSortInvariant | components/dashboard/MonthlyHoursList.tsx:22-25 | sorting does not change the grand total |
| MonthlyHoursList.SortKeepsSorted | components/dashboard/MonthlyHoursList.tsx:22 | an already sorted list is left as it is |
| DashboardPage.ProvisionedName | app/dashboard/page.tsx:52 | the new profile's name is the email's local part, or `ユーザー` when that is empty or missing; never empty |
| DashboardPage.ProvisionedNameOfAddress | app/dashboard/page.tsx:52 | an address `local@domain` gives exactly `local` |
| DashboardPage.NewProfile | app/dashboard/page.tsx:55-64 | the inserted profile is a member with the user's id, the provisioned name, no LINE fields, created and updated now |
| DashboardPage.StartPage | app/dashboard/page.tsx:38-78 | no user goes to login; an existing profile is kept; a missing one is inserted, or on failure the user is signed out and sent to the error page with nothing written |
| DashboardPage.TargetDate | app/dashboard/page.tsx:82 | no date parameter means today, and a formatted date names that date |
| DashboardPage.UserReportsIn | lib/reports.ts:97-118 | the rows kept are the caller's reports dated in the window |
| DashboardPage.CurrentUserMonthlyHours | app/dashboard/page.tsx:88-96 | the caller's hours are their entry of the admin list: the same one-day-shifted window and sum |
| DashboardPage.OwnHoursAgree | app/dashboard/page.tsx:92-96 | summing the caller's fetched reports equals the per-user monthly total |
| DashboardPage.MonthlyListFor | app/dashboard/page.tsx:99-102 | the all-users list is computed for admins only, one entry per active profile with that profile's month total, and is empty for everyone else |
| DashboardPage.SplitSummaries | app/dashboard/page.tsx:109-110 | not-submitted and submitted lists partition the summaries |
| Line.AppUrl | lib/line.ts:110-135 | the configured app URL when truthy, else the placeholder URL |
| Line.LineRequest | lib/line.ts:13-32 | no request without an access token; otherwise the API URL with a bearer header |
| Line.Deliver | lib/line.ts:37-63 | a send succeeds exactly when a token is configured and the answer is OK; it never throws |
| Line.Multicast | lib/line.ts:68-98 | an empty recipient list succeeds without any request; otherwise as a send |
| Line.Greeting | lib/line.ts:104 | `{name}さん、` when a name is given, else nothing |
| Line.ReminderGreeting | lib/line.ts:103-112 | the reminder starts with the greeting exactly when a name is given |
| Line.ReminderLinksToReportPage | lib/line.ts:110 | the reminder contains the report page's URL |
| Line.LinkingSuccessMessage | lib/line.ts:118-125 | the message starts by addressing the user and announcing the link |
| Line.AdminNotificationMessage | lib/line.ts:130-139 | the notification starts with the user and the date, and ends with the user's dashboard link |
| Line.AdminNotificationMentions | lib/line.ts:130-139 | the name, the date and `{appUrl}/dashboard/{userId}` all occur in the notification |
| Line.VerifySignature | lib/line.ts:165-182 | false without a channel secret; otherwise true exactly when the signature equals the MAC of the body |
| Line.SignatureAcceptsExactlyTheMac | lib/line.ts:176-181 | the channel's own signature is accepted and any other string is refused |
| LineLoginStart.StripTrailingSlash | app/api/auth/line/start/route.ts:18 | one trailing `/` is removed when present, else the text is unchanged |
| LineLoginStart.BaseUrl | app/api/auth/line/start/route.ts:17-25 | the app URL without a trailing slash, else `https://` and the deployment host, else localhost; never empty |
| LineLoginStart.TrailingSlashIgnored | app/api/auth/line/start/route.ts:18 | an app URL with or without its trailing slash gives the same base |
| LineLoginStart.ModeParam | app/api/auth/line/start/route.ts:29 | the mode defaults to `login` |
| LineLoginStart.Start | app/api/auth/line/start/route.ts:27-61 | without a channel id, the error page and no authorization request; else a `code` request to the callback with `state` = id `_` mode |
| LineCallback.ParseModeFromState | app/api/auth/line/callback/route.ts:40-45 | link exactly when a state is given and its last `_` segment is `link` |
| LineCallback.StateCarriesMode | app/api/auth/line/start/route.ts:43-44 | the start route's state reads back as link mode exactly when link was asked for |
| LineCallback.PlainStateIsLogin | app/api/auth/line/callback/route.ts:40-45 | a state without `_` other than `link` reads as login |
| LineCallback.ErrorPath | app/api/auth/line/callback/route.ts:73-134 | failures go to `/settings` in link mode and `/auth/error` in login mode |
| LineCallback.LineEmail | app/api/auth/line/callback/route.ts:162 | the placeholder email is `line_` + uid + `@line.local` |
| LineCallback.WithLineId | app/api/auth/line/callback/route.ts:240-247 | only the LINE id, the link time and `updated_at` change |
| LineCallback.RecordLineId | app/api/auth/line/callback/route.ts:240-247 | only that profile changes, and a missing row changes nothing |
| LineCallback.NewLineProfile | app/api/auth/line/callback/route.ts:254-263 | a new LINE account's profile is a member with the display name, the placeholder email and the LINE id |
| LineCallback.InsertIdentity | app/api/auth/line/callback/route.ts:198-224 | a refused insert, or one whose key is taken, changes nothing; otherwise the mapping is added |
| LineCallback.MappedUser | app/api/auth/line/callback/route.ts:151-157 | the mapped user is found exactly when a non-empty mapping exists |
| LineCallback.LoginResolution | app/api/auth/line/callback/route.ts:151-234 | a mapping resolves to its user; otherwise a created account resolves as new; an "already/exists/registered" error recovers the account by email; any other error aborts |
| LineCallback.LoginProfiles | app/api/auth/line/callback/route.ts:236-277 | a mapped user gets the LINE id recorded; a new user gets a member row, or the LINE id recorded when that insert fails; no other row changes |
| LineCallback.HandleLogin | app/api/auth/line/callback/route.ts:142-327 | resolve, record the mapping and profile, then open a session for the placeholder email; failed writes are only logged; an abort writes nothing |
| LineCallback.MappedLoginTouchesOneProfile | app/api/auth/line/callback/route.ts:239-252 | a mapped login changes only that user's LINE fields and `updated_at` |
| LineCallback.FirstLoginCreatesMember | app/api/auth/line/callback/route.ts:254-263 | a first login inserts a member profile and the mapping to the new account |
| LineCallback.LinkDecision | app/api/auth/line/callback/route.ts:342-364 | no session, already linked to the caller, linked to another user, or insert for the caller |
| LineCallback.HandleLink | app/api/auth/line/callback/route.ts:332-399 | the first three outcomes write nothing; a refused mapping insert throws; otherwise the mapping and the caller's LINE id are stored |
| LineCallback.LinkThenLogin | app/api/auth/line/callback/route.ts:356-377 | after a link, a login with the same LINE account resolves to the linked user |
| LineCallback.ProviderUid | app/api/auth/line/callback/route.ts:121 | the uid is lower-cased before any lookup |
| LineCallback.Callback | app/api/auth/line/callback/route.ts:58-137 | a provider error or a missing code is redirected without any call; a missing configuration or a failed LINE call becomes an error redirect for the mode; otherwise, on the lower-cased uid, link mode redirects and writes by the link decision and login mode by the login resolution, with a thrown step becoming the mode's error redirect |
| LineWebhook.Single | app/api/line/webhook/route.ts:112-131 | `.single()` yields a row exactly when one row matches |
| LineWebhook.LineIdHolders | app/api/line/webhook/route.ts:108-112 | the profiles whose LINE id is the sender's |
| LineWebhook.CodeHolders | app/api/line/webhook/route.ts:127-131 | the profiles holding the code |
| LineWebhook.LinkedByCode | app/api/line/webhook/route.ts:160-168 | the LINE id and link time are set, the code and expiry are cleared, nothing else changes |
| LineWebhook.ConsumeCode | app/api/line/webhook/route.ts:100-188 | only a successful link changes anything, and then only the code holder's row; an already-linked sender, an unknown or expired code, or a refused update changes nothing |
| LineWebhook.UniqueHolder | app/api/line/webhook/route.ts:108-114 | with unique LINE ids, a LINE id has at most one holder |
| LineWebhook.ConsumeKeepsLineIdsUnique | app/api/line/webhook/route.ts:108-168 | linking by code never gives one LINE id to two profiles |
| LineWebhook.CodeIn | app/api/line/webhook/route.ts:59-63 | a text message takes the linking path exactly when its trimmed text is six ASCII digits |
| LineWebhook.ReplyIfToken | app/api/line/webhook/route.ts:69-82 | a reply is sent exactly when the event has a reply token |
| LineWebhook.EventStep | app/api/line/webhook/route.ts:51-95 | events without a sender are ignored; a code is consumed; other text messages and follows get their reply and change nothing |
| LineWebhook.ProcessPrefix | app/api/line/webhook/route.ts:34-36 | handling one more event extends the fold by one step |
| LineWebhook.StepKeepsProfilesKeyed | app/api/line/webhook/route.ts:160-168 | each event keeps every profile under its own id |
| LineWebhook.EventsKeepLineIdsUnique | app/api/line/webhook/route.ts:34-36 | however many events arrive, no LINE id ends up on two profiles |
| LineWebhook.EventsOnlyTouchLinkFields | app/api/line/webhook/route.ts:160-168 | the events change only the four LINE fields and add or remove no profile |
| LineWebhook.HandleEvents | app/api/line/webhook/route.ts:34-36 | events are handled in order, and each reply is recorded at its event's position |
| LineWebhook.Post | app/api/line/webhook/route.ts:19-46 | a missing or wrong signature is refused with nothing handled; an unreadable body is a server error; otherwise the events are handled |
| LineLink.CodeNumber | app/api/line/link/route.ts:43 | the code is `floor(100000 + r·900000)` and lies in [100000, 999999] |
| LineLink.SixDigits | app/api/line/link/route.ts:43 | such a number prints as six digits |
| LineLink.IssuedCodeIsRecognised | app/api/line/webhook/route.ts:60-63 | every issued code is a linking code to the webhook, even after trimming |
| LineLink.StoreCode | app/api/line/link/route.ts:47-53 | only the caller's code and expiry change |
| LineLink.ClearLink | app/api/line/link/route.ts:95-103 | only the caller's four LINE fields become null |
| LineLink.IssueCode | app/api/line/link/route.ts:13-74 | 401 without a session, 400 when already linked, 500 when refused, all with no write; otherwise the code with expiry now + 10 minutes on the caller's row |
| LineLink.IssuedCodeLinksItsOwner | app/api/line/webhook/route.ts:127-168 | a code sent in time from an unlinked LINE account links its owner and only its owner |
| LineLink.LateCodeChangesNothing | app/api/line/webhook/route.ts:146-157 | a code sent after its expiry links nobody and changes nothing |
| LineLink.Unlink | app/api/line/link/route.ts:79-121 | 401 or 500 with no write, or the caller's LINE fields cleared |
| LineLink.UnlinkedIsNotLinked | app/api/line/link/route.ts:95-148 | after unlinking, the status reads as not linked |
| LineLink.LinkStatus | app/api/line/link/route.ts:126-158 | 401 without a session; otherwise linked exactly when a LINE id is set, with its link time |
| CronReminder.Candidates | app/api/cron/reminder/route.ts:41-45 | the candidates are exactly the active profiles with a LINE id, in row order |
| CronReminder.SubmittedIds | app/api/cron/reminder/route.ts:64-75 | exactly the users with a report dated today |
| CronReminder.Targets | app/api/cron/reminder/route.ts:79 | the targets are exactly the candidates who have not submitted |
| CronReminder.TargetsAppend | app/api/cron/reminder/route.ts:79 | the filter keeps the candidates' order |
| CronReminder.LineIds | app/api/cron/reminder/route.ts:80-82 | one LINE id per target, in order |
| CronReminder.Names | app/api/cron/reminder/route.ts:117 | one name per target, in order |
| CronReminder.Run | app/api/cron/reminder/route.ts:25-126 | 401 on a wrong bearer when a secret is set; 500 on a failed query; no candidates or no targets send nothing; whenever there are targets, one multicast to their LINE ids, then 500 on failure or `notified` = the number of targets and `users` = their names |
| CronReminder.RemindedIffUnreported | app/api/cron/reminder/route.ts:41-82 | an active profile with a LINE id is reminded exactly when it has no report today |
| AdminActions.WithActive | app/actions/admin.ts:39-42 | only the target's `is_active` changes |
| AdminActions.WithRole | app/actions/admin.ts:91-94 | only the target's `role` changes |
| AdminActions.ToggleUserStatus | app/actions/admin.ts:10-52 | Unauthorized, then Forbidden, then update failure, all with no write; otherwise only the target's flag changes, self included |
| AdminActions.ToggleUserRole | app/actions/admin.ts:57-103 | as above, with an admin's own role refused; the caller stays an admin |
| AdminActions.AdminSurvivesRoleChange | app/actions/admin.ts:86-94 | a role change by an admin always leaves some admin |
| ProfileActions.AcceptableIffNotBlank | app/actions/profile.ts:22-24 | a name is accepted exactly when it has a character that is not white space |
| ProfileActions.Renamed | app/actions/profile.ts:27-29 | only the caller's name changes |
| ProfileActions.UpdateProfile | app/actions/profile.ts:8-40 | auth error, blank name, update failure, all with no write; otherwise the caller's name becomes the trimmed input |
| ProfileActions.StoredNameIsTrimmed | app/actions/profile.ts:28 | a stored name is non-blank and its own trim, so saving it again changes nothing |
| AuthActions.Login | app/actions/auth.ts:8-28 | a sign-in error returns its message and does not redirect; otherwise on to `/dashboard` |
| AuthActions.CodeCheck | app/actions/auth.ts:41-55 | a code with no secret, or a code other than the secret, is an error; no code passes |
| AuthActions.Signup | app/actions/auth.ts:30-82 | a failed code check makes no sign-up request; a sign-up error is returned; promotion happens exactly for a created user with the right code, and its failure is ignored |
| AuthActions.PromotionNeedsTheCode | app/actions/auth.ts:67 | once the check passed, a new account is promoted exactly when a code was given |
| AuthActions.SignInWithLine | app/actions/auth.ts:84-110 | the base URL as in the start route; no channel id goes to the error page; otherwise a login request whose state is the bare id |
| AuthActions.LineSignInReturnsInLoginMode | app/actions/auth.ts:96-103 | a LINE sign-in from this action comes back in login mode |
| AuthActions.SignInWithGoogle | app/actions/auth.ts:112-141 | offline Sheets-scoped OAuth back to `/auth/callback`; an error goes to the error page with its message, a URL is followed, and no URL goes to the error page |
| ExportCsv.HeaderLine | app/api/admin/export-csv/route.ts:43-51 | the header line is `メンバー名,稼働時間合計(h),集計期間` |
| ExportCsv.Escape | app/api/admin/export-csv/route.ts:45 | doubling quotes never shortens the name |
| ExportCsv.EscapeAddsOnlyQuotes | app/api/admin/export-csv/route.ts:45 | every character of the escaped name is one of the name's or a quote |
| ExportCsv.Quote | app/api/admin/export-csv/route.ts:45 | a quoted field starts and ends with `"` |
| ExportCsv.Unquote | app/api/admin/export-csv/route.ts:45 | a field read as quoted must start with `"` |
| ExportCsv.ReadEscaped | app/api/admin/export-csv/route.ts:45 | reading an escaped name up to its closing quote gives the name and the text after |
| ExportCsv.ReadEscapedStep | app/api/admin/export-csv/route.ts:45 | escaping the first character and reading it back extends what the rest reads as by that character |
| ExportCsv.ReadDoubledQuote | app/api/admin/export-csv/route.ts:45 | a doubled quote reads as one quote |
| ExportCsv.ReadPlainChar | app/api/admin/export-csv/route.ts:45 | any character but a quote reads as itself |
| ExportCsv.QuoteRoundTrip | app/api/admin/export-csv/route.ts:45 | unquoting a quoted name gives it back, whatever quotes it holds |
| ExportCsv.Row | app/api/admin/export-csv/route.ts:44-52 | a user's line is quoted name, hours, quoted period, and its first field reads back as the name |
| ExportCsv.Lines | app/api/admin/export-csv/route.ts:50-52 | the header, then one line per user, in order |
| ExportCsv.Content | app/api/admin/export-csv/route.ts:53-57 | a byte order mark, then the lines joined by LF |
| ExportCsv.OneLinePerUser | app/api/admin/export-csv/route.ts:44-57 | splitting the body at LF gives back the header and one line per user |
| ExportCsv.DateHasNoLineFeed | lib/date-utils.ts:40-45 | a formatted date never breaks a line |
| ExportCsv.MonthLabel | app/api/admin/export-csv/route.ts:62 | the file name's 7 characters are the month's `YYYY-MM` |
| ExportCsv.Post | app/api/admin/export-csv/route.ts:6-70 | 401 without a session, 403 for a non-admin, 500 on a failed query; otherwise the month's CSV with its content type and file name |
| ExportSheet.SheetValues | app/api/admin/export-spreadsheet/route.ts:69-73 | the header row, then one 3-cell row per user, in order |
| ExportSheet.SheetMatchesCsv | app/api/admin/export-spreadsheet/route.ts:69-73 | the sheet and the CSV carry the same table |
| ExportSheet.Title | app/api/admin/export-spreadsheet/route.ts:50 | the title is `WorkHub稼働集計_` followed by at most 7 characters of the start date |
| ExportSheet.Export | app/api/admin/export-spreadsheet/route.ts:47-92 | create a spreadsheet with a `WorkLog` sheet, then write the values at `WorkLog!A1` as RAW; any failure is 500 |
| ExportSheet.GateAsWritten | app/api/admin/export-spreadsheet/route.ts:16-26 | the route as written: 401 without a session, 400 without a Google token, no role check |
| ExportSheet.MemberPassesGateAsWritten | app/api/admin/export-spreadsheet/route.ts:16-26 | a member with a Google token passes the route's checks |
| ExportSheet.Gate | app/api/admin/export-spreadsheet/route.ts:16-26 | the corrected checks: 401, then 403 for a non-admin, then 400 |
| ExportSheet.GateClosesTheGap | app/api/admin/export-spreadsheet/route.ts:16-26 | the corrected checks let through exactly the admins among the sessions the route lets through |
| ExportSheet.Post | app/api/admin/export-spreadsheet/route.ts:7-93 | the corrected checks, then the month's totals, then the export |

## Left out

- Rendering: JSX, CSS, animations and timers of every component and page. Only the values they compute are modelled.
- Timezones: `getNowJST`, `toISOString`, and `parseDate` reading a date as UTC midnight. Dates are civil dates, and "today" is a parameter.
- Parsing of a request's JSON body, and the clock default for the export month. The routes take the month as an already-read date.
- JSON parsing of the fields holding task lists. A field is absent, malformed or a parsed list.
- The percent-encoding of URL query strings and `encodeURIComponent`. `encode` is a parameter, and redirect queries are kept decoded.
- JavaScript's printing of numbers (`toString`, `toFixed`). CSV numbers go through the parameter `show`.
- HMAC-SHA256 and base64 (RFC 2104). They are the parameter `mac`.
- Every network and provider call: LINE's token, profile and messaging APIs, the Google Sheets API, the auth provider's `signUp`, `signInWithPassword`, `createUser`, `generateLink`, `verifyOtp`, and session cookies. Each one's answer is an input.
- Randomness (`crypto.randomUUID`, `Math.random`). It is an input.
- Concurrency between simultaneous requests. Every operation runs alone.
- NaN and IEEE floating point. Hours are exact reals.
- `toLowerCase` beyond ASCII letters. Other characters are kept as they are.
- Logging, `revalidatePath`, and the error message texts the database returns.
- The text of the webhook's fixed replies. Replies are recorded by kind and reply token.
- The database trigger that creates a profile for a new sign-up. It is not part of this model, so a promotion updates a row only when one exists.
- The React closure of `TaskInput` that shares row objects between renders. The rows are values.
- `spreadsheetId!` when the Sheets API answers without an id. `Created` always carries one.
- Reports.AllUsersMonthlyHours: the `order("name")` of the profiles query is left to the database. The active rows are taken in the order the profiles table is given.
- Reports.DashboardSummary: the same. The active rows are taken in the order the profiles table is given.
- Reports.ReportByUserAndDate: a query error other than "no row" (PGRST116), which the function rethrows, is not modelled. The table is a map, and the lookup cannot fail.
- MonthlyHoursList.SortByHours: stability is not stated. JavaScript's `sort` keeps entries with equal hours in their input order, and the contract says only sorted and a permutation.
- DashboardPage.TargetDate: a date parameter that does not read as `YYYY-MM-DD` names no date. The page would instead go on with an invalid JavaScript `Date`.
- ReportActions.SubmitReport: a `report_date` that is not a date is modelled as a refused write, not as the database's own error text.
- LineCallback.Callback: `error_description` only supplies the error text. Both parameters are one optional message.

## Findings

| source | as written | input that shows it | evidently intended | confidence | as-written member | corrected member |
|---|---|---|---|---|---|---|
| app/api/admin/export-spreadsheet/route.ts:16-26 | checks only for a session and a Google token, and never reads the caller's role, so every user's monthly hours are exported | a session of a profile with role `member` and a non-empty Google provider token | the admin check of the CSV export (app/api/admin/export-csv/route.ts:19-30): 403 for anyone but an admin | medium, not executed | ExportSheet.GateAsWritten, ExportSheet.MemberPassesGateAsWritten | ExportSheet.Gate, ExportSheet.GateClosesTheGap |
