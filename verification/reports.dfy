/**
 * The report data layer of lib/reports.ts: hour totals of task lists,
 * statistics over reports, the monthly per-user totals (with the one-day
 * shift between a report's date and the day its "yesterday" tasks were
 * worked), the per-date dashboard summary, and the two single-row lookups.
 *
 * The database's filters (`report_date` ranges, `is_active`) are applied by
 * the model itself over the rows it is given, so that what the result is
 * computed from is part of the contract.
 */
module Reports {
  import opened Values
  import opened Dates
  import opened Schema

  /** `actual_hours || planned_hours || 0` for one task. */
  function TaskHours(t: Task): (h: real)
    ensures TruthyNum(t.actualHours) ==> h == t.actualHours.value
    ensures !TruthyNum(t.actualHours) && TruthyNum(t.plannedHours) ==> h == t.plannedHours.value
    ensures !TruthyNum(t.actualHours) && !TruthyNum(t.plannedHours) ==> h == 0.0
  {
    OrNum(t.actualHours, OrNum(t.plannedHours, 0.0))
  }

  /** An actual value of 0 is falsy, so the planned hours are counted in its place. */
  lemma ZeroActualCountsPlanned(name: string, planned: real, completed: Option<bool>)
    ensures TaskHours(Task(name, Some(0.0), Some(planned), completed)) == planned
  {
  }

  /** `calculateTotalHours`: the hours of each task, summed left to right. */
  function TotalHours(tasks: seq<Task>): (total: real)
    ensures tasks == [] ==> total == 0.0
  {
    if tasks == [] then 0.0 else TotalHours(tasks[..|tasks| - 1]) + TaskHours(tasks[|tasks| - 1])
  }

  /** The total of two lists read one after the other is the sum of their totals. */
  lemma {:induction false} TotalHoursAppend(a: seq<Task>, b: seq<Task>)
    ensures TotalHours(a + b) == TotalHours(a) + TotalHours(b)
    decreases |b|
  {
    if b == [] {
      assert a + b == a;
    } else {
      assert (a + b)[..|a + b| - 1] == a + b[..|b| - 1];
      TotalHoursAppend(a, b[..|b| - 1]);
    }
  }

  /** Summing from the front gives the same total as the reduce. */
  lemma TotalHoursCons(t: Task, tasks: seq<Task>)
    ensures TotalHours([t] + tasks) == TaskHours(t) + TotalHours(tasks)
  {
    TotalHoursAppend([t], tasks);
    assert [t][..0] == [];
  }

  /** Tasks whose hours are never negative give a non-negative total. */
  lemma {:induction false} TotalHoursNonNegative(tasks: seq<Task>)
    requires forall i :: 0 <= i < |tasks| ==> TaskHours(tasks[i]) >= 0.0
    ensures TotalHours(tasks) >= 0.0
    decreases |tasks|
  {
    if tasks != [] {
      TotalHoursNonNegative(tasks[..|tasks| - 1]);
    }
  }

  /** The object `calculateReportStatistics` returns. */
  datatype Statistics = Statistics(
    totalReports: nat,
    totalYesterdayHours: real,
    totalTodayHours: real,
    averageYesterdayHours: real,
    averageTodayHours: real,
    totalTasks: nat)

  function SumYesterdayHours(reports: seq<Report>): real {
    if reports == [] then 0.0
    else SumYesterdayHours(reports[..|reports| - 1]) + TotalHours(reports[|reports| - 1].yesterdayTasks)
  }

  function SumTodayHours(reports: seq<Report>): real {
    if reports == [] then 0.0
    else SumTodayHours(reports[..|reports| - 1]) + TotalHours(reports[|reports| - 1].todayTasks)
  }

  function SumTaskCounts(reports: seq<Report>): nat {
    if reports == [] then 0
    else
      var last := reports[|reports| - 1];
      SumTaskCounts(reports[..|reports| - 1]) + |last.yesterdayTasks| + |last.todayTasks|
  }

  /** `calculateReportStatistics`: all zeros for no reports, otherwise totals and their per-report means. */
  function ReportStatistics(reports: seq<Report>): (s: Statistics)
    ensures s.totalReports == |reports|
    ensures reports == [] ==> s == Statistics(0, 0.0, 0.0, 0.0, 0.0, 0)
    ensures reports != [] ==>
      s.averageYesterdayHours * (|reports| as real) == s.totalYesterdayHours
      && s.averageTodayHours * (|reports| as real) == s.totalTodayHours
    ensures s.totalTasks == SumTaskCounts(reports)
    ensures s.totalYesterdayHours == SumYesterdayHours(reports) && s.totalTodayHours == SumTodayHours(reports)
  {
    if |reports| == 0 then Statistics(0, 0.0, 0.0, 0.0, 0.0, 0)
    else
      var n := |reports| as real;
      var y := SumYesterdayHours(reports);
      var t := SumTodayHours(reports);
      Statistics(|reports|, y, t, y / n, t / n, SumTaskCounts(reports))
  }

  /** The count of tasks of a report list is the number of tasks in all its lists together. */
  lemma {:induction false} TaskCountAppend(a: seq<Report>, b: seq<Report>)
    ensures SumTaskCounts(a + b) == SumTaskCounts(a) + SumTaskCounts(b)
    decreases |b|
  {
    if b == [] {
      assert a + b == a;
    } else {
      assert (a + b)[..|a + b| - 1] == a + b[..|b| - 1];
      TaskCountAppend(a, b[..|b| - 1]);
    }
  }

  /** The hour sums of two report lists read one after the other are the sums of their own. */
  lemma {:induction false} SumHoursAppend(a: seq<Report>, b: seq<Report>)
    ensures SumYesterdayHours(a + b) == SumYesterdayHours(a) + SumYesterdayHours(b)
    ensures SumTodayHours(a + b) == SumTodayHours(a) + SumTodayHours(b)
    decreases |b|
  {
    if b == [] {
      assert a + b == a;
    } else {
      assert (a + b)[..|a + b| - 1] == a + b[..|b| - 1];
      SumHoursAppend(a, b[..|b| - 1]);
    }
  }

  /** The totals over two report lists together are the sums of their own totals. */
  lemma StatisticsAppend(a: seq<Report>, b: seq<Report>)
    ensures var (s, sa, sb) := (ReportStatistics(a + b), ReportStatistics(a), ReportStatistics(b));
      s.totalReports == sa.totalReports + sb.totalReports
      && s.totalYesterdayHours == sa.totalYesterdayHours + sb.totalYesterdayHours
      && s.totalTodayHours == sa.totalTodayHours + sb.totalTodayHours
      && s.totalTasks == sa.totalTasks + sb.totalTasks
  {
    SumHoursAppend(a, b);
    TaskCountAppend(a, b);
  }

  /** A single report's statistics are its own totals, in which case the average equals the total. */
  lemma StatisticsOfOne(r: Report)
    ensures ReportStatistics([r]).totalYesterdayHours == TotalHours(r.yesterdayTasks)
    ensures ReportStatistics([r]).averageYesterdayHours == TotalHours(r.yesterdayTasks)
    ensures ReportStatistics([r]).totalTasks == |r.yesterdayTasks| + |r.todayTasks|
  {
    assert [r][..0] == [];
    assert SumYesterdayHours([r]) == TotalHours(r.yesterdayTasks);
    assert SumTaskCounts([r]) == |r.yesterdayTasks| + |r.todayTasks|;
  }

  // ---- Single-row lookups ------------------------------------------------------

  /** `getReportByUserAndDate`: the report of `user` on `date`, or null (no row). */
  function ReportByUserAndDate(reports: map<(UserId, Date), Report>, user: UserId, date: Date): (r: Option<Report>)
    ensures r.Some? <==> (user, date) in reports
    ensures r.Some? ==> r.value == reports[(user, date)]
  {
    if (user, date) in reports then Some(reports[(user, date)]) else None
  }

  /**
   * `getYesterdayTodayTasks`: the `today_tasks` of the user's report on the
   * previous day, and the empty list when there is no such report.
   */
  function YesterdayTodayTasks(reports: map<(UserId, Date), Report>, user: UserId, today: Date): (tasks: seq<Task>)
    requires Valid(today)
    ensures (user, Prev(today)) in reports ==> tasks == reports[(user, Prev(today))].todayTasks
    ensures (user, Prev(today)) !in reports ==> tasks == []
  {
    match ReportByUserAndDate(reports, user, Prev(today))
    case Some(r) => r.todayTasks
    case None => []
  }

  // ---- Monthly totals ------------------------------------------------------------

  /** Dates compared the way the `gte`/`lte` filters compare a `date` column. */
  predicate InWindow(d: Date, lo: Date, hi: Date)
    requires Valid(d) && Valid(lo) && Valid(hi)
  {
    OnOrBefore(lo, d) && OnOrBefore(d, hi)
  }

  predicate AllDatesValid(reports: seq<Report>) {
    forall i :: 0 <= i < |reports| ==> Valid(reports[i].date)
  }

  /** The hours of `user` from the yesterday lists of their reports dated in [lo, hi]. */
  function UserHoursIn(reports: seq<Report>, user: UserId, lo: Date, hi: Date): real
    requires AllDatesValid(reports) && Valid(lo) && Valid(hi)
  {
    if reports == [] then 0.0
    else
      var last := reports[|reports| - 1];
      UserHoursIn(reports[..|reports| - 1], user, lo, hi)
      + (if last.userId == user && InWindow(last.date, lo, hi) then TotalHours(last.yesterdayTasks) else 0.0)
  }

  /** A user with no report in the window has zero hours. */
  lemma {:induction false} UserHoursInNone(reports: seq<Report>, user: UserId, lo: Date, hi: Date)
    requires AllDatesValid(reports) && Valid(lo) && Valid(hi)
    requires forall i :: 0 <= i < |reports| ==> reports[i].userId != user || !InWindow(reports[i].date, lo, hi)
    ensures UserHoursIn(reports, user, lo, hi) == 0.0
    decreases |reports|
  {
    if reports != [] {
      UserHoursInNone(reports[..|reports| - 1], user, lo, hi);
    }
  }

  /** The profiles query's `.eq("is_active", true)`: the active rows, in the order they came. */
  function ActiveProfiles(profiles: seq<Profile>): (active: seq<Profile>)
    ensures |active| <= |profiles|
    ensures forall p :: p in active <==> p in profiles && p.isActive
  {
    if profiles == [] then []
    else
      var rest := ActiveProfiles(profiles[1..]);
      assert forall p :: p in profiles <==> p == profiles[0] || p in profiles[1..];
      if profiles[0].isActive then [profiles[0]] + rest else rest
  }

  /** The filter keeps the rows' order: filtering a concatenation concatenates the filtered parts. */
  lemma {:induction false} ActiveProfilesAppend(a: seq<Profile>, b: seq<Profile>)
    ensures ActiveProfiles(a + b) == ActiveProfiles(a) + ActiveProfiles(b)
    decreases |a|
  {
    if a != [] {
      assert (a + b)[0] == a[0] && (a + b)[1..] == a[1..] + b;
      ActiveProfilesAppend(a[1..], b);
      if a[0].isActive {
        assert ActiveProfiles(a + b) == [a[0]] + ActiveProfiles(a[1..] + b);
      }
    } else {
      assert a + b == b;
    }
  }

  /** One entry of `getAllUsersMonthlyHours`. */
  datatype UserHours = UserHours(userId: UserId, userName: string, totalHours: real)

  /**
   * `getAllUsersMonthlyHours(start, end)`. `profiles` is the profiles table
   * in the order the query returns it, of which only the active rows get an
   * entry; `reports` is the reports table in any order. Only reports dated
   * from the day after `start` to the day after `end` are summed, since a
   * report's yesterday list covers the previous day.
   */
  method AllUsersMonthlyHours(profiles: seq<Profile>, reports: seq<Report>, start: Date, end: Date)
    returns (result: seq<UserHours>)
    requires Valid(start) && Valid(end) && AllDatesValid(reports)
    ensures var roster := ActiveProfiles(profiles);
      |result| == |roster|
      && forall i :: 0 <= i < |roster| ==>
        result[i].userId == roster[i].id && result[i].userName == roster[i].name
        && result[i].totalHours == UserHoursIn(reports, roster[i].id, Next(start), Next(end))
  {
    var roster := ActiveProfiles(profiles);
    var lo, hi := Next(start), Next(end);
    var hoursMap: map<UserId, real> := map[];
    var i := 0;
    while i < |reports|
      invariant 0 <= i <= |reports|
      invariant forall u :: u in hoursMap ==> hoursMap[u] == UserHoursIn(reports[..i], u, lo, hi)
      invariant forall u :: u !in hoursMap ==> UserHoursIn(reports[..i], u, lo, hi) == 0.0
    {
      var report := reports[i];
      assert reports[..i + 1][..i] == reports[..i];
      if InWindow(report.date, lo, hi) {
        var hours := TotalHours(report.yesterdayTasks);
        var current := if report.userId in hoursMap && hoursMap[report.userId] != 0.0 then hoursMap[report.userId] else 0.0;
        hoursMap := hoursMap[report.userId := current + hours];
      }
      i := i + 1;
    }
    assert reports[..i] == reports;
    result := seq(|roster|, j requires 0 <= j < |roster| =>
      UserHours(roster[j].id, roster[j].name,
        if roster[j].id in hoursMap && hoursMap[roster[j].id] != 0.0 then hoursMap[roster[j].id] else 0.0));
  }

  /** The month's window: a month's totals read the reports from its 2nd day to the 1st of the next month. */
  lemma MonthlyWindow(d: Date)
    requires Valid(d)
    ensures var (first, last) := MonthRange(d);
      Next(first) == Date(d.year, d.month, 2)
      && Next(last).day == 1
      && (d.month < 12 ==> Next(last) == Date(d.year, d.month + 1, 1))
      && (d.month == 12 ==> Next(last) == Date(d.year + 1, 1, 1))
  {
  }

  // ---- Dashboard summary -----------------------------------------------------------

  /** One entry of `getDashboardSummary`. */
  datatype ReportSummary = ReportSummary(
    userId: UserId,
    userName: string,
    userEmail: string,
    userRole: Role,
    reportDate: Date,
    hasSubmitted: bool,
    yesterdayTotalHours: real,
    todayTotalHours: real,
    yesterdayTasks: seq<Task>,
    todayTasks: seq<Task>,
    notes: Option<string>,
    submittedAt: Option<Timestamp>)

  /** The summary of one profile: from its report when there is one, otherwise the zero entry. */
  function SummaryFor(p: Profile, date: Date, report: Option<Report>): (s: ReportSummary)
    ensures s.userId == p.id && s.userName == p.name && s.userEmail == p.email && s.userRole == p.role
    ensures s.reportDate == date && (s.hasSubmitted <==> report.Some?)
    ensures report.Some? ==>
      s.yesterdayTotalHours == TotalHours(report.value.yesterdayTasks)
      && s.todayTotalHours == TotalHours(report.value.todayTasks)
      && s.yesterdayTasks == report.value.yesterdayTasks && s.todayTasks == report.value.todayTasks
      && s.notes == report.value.notes && s.submittedAt == Some(report.value.submittedAt)
    ensures report.None? ==>
      s.yesterdayTotalHours == 0.0 && s.todayTotalHours == 0.0
      && s.yesterdayTasks == [] && s.todayTasks == [] && s.notes.None? && s.submittedAt.None?
  {
    match report
    case Some(r) =>
      ReportSummary(p.id, p.name, p.email, p.role, date, true,
        TotalHours(r.yesterdayTasks), TotalHours(r.todayTasks), r.yesterdayTasks, r.todayTasks,
        r.notes, Some(r.submittedAt))
    case None =>
      ReportSummary(p.id, p.name, p.email, p.role, date, false, 0.0, 0.0, [], [], None, None)
  }

  /** The report `Map.set` leaves for `user`: the last of their rows dated `date`. */
  function LastReportOn(reports: seq<Report>, user: UserId, date: Date): (r: Option<Report>)
    ensures r.None? <==> forall i :: 0 <= i < |reports| ==> !(reports[i].userId == user && reports[i].date == date)
    ensures r.Some? ==> r.value.userId == user && r.value.date == date && r.value in reports
  {
    if reports == [] then None
    else
      var last := reports[|reports| - 1];
      if last.userId == user && last.date == date then Some(last)
      else
        var r := LastReportOn(reports[..|reports| - 1], user, date);
        assert forall x :: x in reports[..|reports| - 1] ==> x in reports;
        r
  }

  /**
   * `getDashboardSummary(date)`: one entry per active row of `profiles`
   * (the profiles table in query order), in that order, built from the
   * reports table rows dated `date`.
   */
  method DashboardSummary(profiles: seq<Profile>, reports: seq<Report>, date: Date) returns (summaries: seq<ReportSummary>)
    ensures var roster := ActiveProfiles(profiles);
      |summaries| == |roster|
      && forall i :: 0 <= i < |roster| ==>
        summaries[i] == SummaryFor(roster[i], date, LastReportOn(reports, roster[i].id, date))
  {
    var roster := ActiveProfiles(profiles);
    var reportMap: map<UserId, Report> := map[];
    var i := 0;
    while i < |reports|
      invariant 0 <= i <= |reports|
      invariant forall u :: u in reportMap ==> LastReportOn(reports[..i], u, date) == Some(reportMap[u])
      invariant forall u :: u !in reportMap ==> LastReportOn(reports[..i], u, date).None?
    {
      assert reports[..i + 1][..i] == reports[..i];
      if reports[i].date == date {
        reportMap := reportMap[reports[i].userId := reports[i]];
      }
      i := i + 1;
    }
    assert reports[..i] == reports;
    summaries := seq(|roster|, j requires 0 <= j < |roster| =>
      SummaryFor(roster[j], date, if roster[j].id in reportMap then Some(reportMap[roster[j].id]) else None));
  }

  /** A profile is marked submitted exactly when the table has a report of theirs dated `date`. */
  lemma SubmittedIffReport(p: Profile, reports: seq<Report>, date: Date)
    ensures SummaryFor(p, date, LastReportOn(reports, p.id, date)).hasSubmitted
      <==> exists i :: 0 <= i < |reports| && reports[i].userId == p.id && reports[i].date == date
  {
  }

  /** Read from a consistent store, the summary of a profile shows its one report of that date. */
  lemma SummaryFromStore(table: map<(UserId, Date), Report>, reports: seq<Report>, p: Profile, date: Date)
    requires forall k :: k in table ==> table[k].userId == k.0 && table[k].date == k.1
    requires forall x :: x in reports <==> x in table.Values
    ensures LastReportOn(reports, p.id, date) == ReportByUserAndDate(table, p.id, date)
  {
    var r := LastReportOn(reports, p.id, date);
    if r.Some? {
      assert r.value in table.Values;
      var k :| k in table && table[k] == r.value;
    } else {
      forall k | k in table
        ensures k != (p.id, date)
      {
        var x := table[k];
        assert x in table.Values;
        var i :| 0 <= i < |reports| && reports[i] == x;
      }
    }
  }
}
