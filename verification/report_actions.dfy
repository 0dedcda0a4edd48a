/**
 * The server actions of app/actions/reports.ts: submitting a day's report
 * (validation, then an update of the caller's report for that date or an
 * insert, then a best-effort notice to the admins), deleting one of the
 * caller's reports, and reading the caller's report for a date.
 *
 * Database write failures, the id the database assigns, the clock and the
 * LINE outcome are parameters; the report date column only takes real
 * dates, so a date text that does not read as one makes the write fail.
 */
module ReportActions {
  import opened Values
  import opened Dates
  import opened Schema
  import Reports
  import Line

  datatype ActionResult = Success(reportId: Option<string>) | Failure(error: string)

  const NotAuthenticated: string := "認証が必要です"
  const NoReportDate: string := "報告日が指定されていません"
  const MalformedTasks: string := "タスクデータの形式が不正です"
  const NoTasks: string := "昨日の実績または今日の予定を最低1つ入力してください"
  const UpdateFailed: string := "報告の更新に失敗しました"
  const InsertFailed: string := "報告の作成に失敗しました"
  const DeleteFailed: string := "報告の削除に失敗しました"

  /** A task-list form field: absent (read as "[]"), not valid JSON, or a parsed list. */
  datatype TaskField = Absent | Malformed | Parsed(tasks: seq<Task>)

  function FieldTasks(f: TaskField): seq<Task>
    requires !f.Malformed?
  {
    if f.Parsed? then f.tasks else []
  }

  /** `notes || null`: empty notes are stored as null. */
  function NotesColumn(notes: string): (c: Option<string>)
    ensures c.None? <==> notes == ""
    ensures c.Some? ==> c.value == notes
  {
    if notes == "" then None else Some(notes)
  }

  /**
   * The reports table after saving `yesterday`, `today` and `notes` as the
   * report of `user` on `date`: the existing row of that pair is updated in
   * place (keeping its id and timestamps), otherwise a row is inserted.
   */
  function UpsertReport(reports: map<(UserId, Date), Report>, user: UserId, date: Date,
                        yesterday: seq<Task>, today: seq<Task>, notes: string, newId: string, now: Timestamp)
    : (r: map<(UserId, Date), Report>)
    requires ReportsKeyed(reports) && Valid(date)
    ensures ReportsKeyed(r)
    ensures r.Keys == reports.Keys + {(user, date)}
    ensures forall k :: k in reports && k != (user, date) ==> r[k] == reports[k]
    ensures var row := r[(user, date)];
      row.userId == user && row.date == date
      && row.yesterdayTasks == yesterday && row.todayTasks == today && row.notes == NotesColumn(notes)
    ensures (user, date) in reports ==> r[(user, date)].id == reports[(user, date)].id
    ensures (user, date) in reports ==> r[(user, date)].submittedAt == reports[(user, date)].submittedAt
    ensures (user, date) !in reports ==> r[(user, date)].id == newId && r[(user, date)].submittedAt == now
  {
    var key := (user, date);
    if key in reports then
      reports[key := reports[key].(yesterdayTasks := yesterday, todayTasks := today, notes := NotesColumn(notes))]
    else
      reports[key := Report(newId, user, date, yesterday, today, NotesColumn(notes), now, now, now)]
  }

  /** Submitting twice for the same day leaves one row holding the second submission. */
  lemma ResubmitReplaces(reports: map<(UserId, Date), Report>, user: UserId, date: Date,
                         y1: seq<Task>, t1: seq<Task>, n1: string, y2: seq<Task>, t2: seq<Task>, n2: string,
                         id1: string, id2: string, now1: Timestamp, now2: Timestamp)
    requires ReportsKeyed(reports) && Valid(date)
    ensures var once := UpsertReport(reports, user, date, y1, t1, n1, id1, now1);
      var twice := UpsertReport(once, user, date, y2, t2, n2, id2, now2);
      twice.Keys == once.Keys
      && twice[(user, date)] == once[(user, date)].(yesterdayTasks := y2, todayTasks := t2, notes := NotesColumn(n2))
  {
  }

  /** The next day's form carries over exactly the plan that was just saved. */
  lemma SavedPlanIsCarriedOver(reports: map<(UserId, Date), Report>, user: UserId, date: Date,
                               yesterday: seq<Task>, today: seq<Task>, notes: string, newId: string, now: Timestamp)
    requires ReportsKeyed(reports) && Valid(date)
    ensures Reports.YesterdayTodayTasks(UpsertReport(reports, user, date, yesterday, today, notes, newId, now), user, Next(date)) == today
  {
    PrevNext(date);
  }

  /** The LINE ids of the admins who have one: the recipients of the submission notice. */
  function AdminLineIds(profiles: map<UserId, Profile>): (ids: set<string>)
    ensures forall x :: x in ids <==> exists id :: id in profiles && profiles[id].role == Admin && profiles[id].lineUserId == Some(x)
  {
    set id | id in profiles && profiles[id].role == Admin && profiles[id].lineUserId.Some? :: profiles[id].lineUserId.value
  }

  /** A notice sent to the admins. */
  datatype Notice = Notice(recipients: set<string>, message: string)

  /**
   * The notice after a successful submission: only when the submitter has a
   * profile whose role is not admin and at least one admin has a LINE id.
   */
  function SubmissionNotice(profiles: map<UserId, Profile>, user: UserId, reportDate: string, appUrl: Option<string>)
    : (n: Option<Notice>)
    ensures n.Some? <==> user in profiles && profiles[user].role != Admin && AdminLineIds(profiles) != {}
    ensures n.Some? ==> n.value.recipients == AdminLineIds(profiles)
    ensures n.Some? ==> n.value.message == Line.AdminNotificationMessage(profiles[user].name, reportDate, user, appUrl)
  {
    if user in profiles && profiles[user].role != Admin && AdminLineIds(profiles) != {} then
      Some(Notice(AdminLineIds(profiles), Line.AdminNotificationMessage(profiles[user].name, reportDate, user, appUrl)))
    else None
  }

  /**
   * `submitReport`: the guards in order (session, date field, JSON, at least
   * one task), then the upsert. `writeOk` is the database's answer to the
   * update or insert. Whatever happens to the notice, a saved report is a
   * success.
   */
  method SubmitReport(db: Store, session: Option<UserId>, reportDate: string, yesterday: TaskField, today: TaskField,
                      notes: string, newId: string, writeOk: bool, now: Timestamp, appUrl: Option<string>)
    returns (result: ActionResult, notice: Option<Notice>)
    requires db.Valid()
    modifies db
    ensures db.Valid()
    ensures db.profiles == old(db.profiles) && db.identities == old(db.identities)
    ensures session.None? ==> result == Failure(NotAuthenticated)
    ensures session.Some? && reportDate == "" ==> result == Failure(NoReportDate)
    ensures session.Some? && reportDate != "" && (yesterday.Malformed? || today.Malformed?) ==> result == Failure(MalformedTasks)
    ensures session.Some? && reportDate != "" && !yesterday.Malformed? && !today.Malformed?
      ==> (FieldTasks(yesterday) == [] && FieldTasks(today) == [] ==> result == Failure(NoTasks))
    ensures result.Failure? ==> db.reports == old(db.reports) && notice.None?
    ensures result.Success? <==>
      session.Some? && reportDate != "" && !yesterday.Malformed? && !today.Malformed?
      && (FieldTasks(yesterday) != [] || FieldTasks(today) != [])
      && Parse(reportDate).Some? && writeOk
    ensures result.Success? ==>
      var d := Parse(reportDate).value;
      db.reports == UpsertReport(old(db.reports), session.value, d, FieldTasks(yesterday), FieldTasks(today), notes, newId, now)
      && result.reportId == Some(db.reports[(session.value, d)].id)
      && notice == SubmissionNotice(old(db.profiles), session.value, reportDate, appUrl)
  {
    notice := None;
    if session.None? {
      return Failure(NotAuthenticated), None;
    }
    var user := session.value;
    if reportDate == "" {
      return Failure(NoReportDate), None;
    }
    if yesterday.Malformed? || today.Malformed? {
      return Failure(MalformedTasks), None;
    }
    var y, t := FieldTasks(yesterday), FieldTasks(today);
    if |y| == 0 && |t| == 0 {
      return Failure(NoTasks), None;
    }
    var date := Parse(reportDate);
    if date.None? {
      // The existing-row lookup finds nothing, and the insert is refused by the date column.
      return Failure(InsertFailed), None;
    }
    var key := (user, date.value);
    var existing := key in db.reports;
    if !writeOk {
      return Failure(if existing then UpdateFailed else InsertFailed), None;
    }
    db.reports := UpsertReport(db.reports, user, date.value, y, t, notes, newId, now);
    result := Success(Some(db.reports[key].id));
    notice := SubmissionNotice(db.profiles, user, reportDate, appUrl);
  }

  /** The reports table without the rows whose id is `reportId` and whose owner is `user`. */
  function DeleteOwned(reports: map<(UserId, Date), Report>, user: UserId, reportId: string)
    : (r: map<(UserId, Date), Report>)
    ensures forall k :: k in r <==> k in reports && !(reports[k].id == reportId && k.0 == user)
    ensures forall k :: k in r ==> r[k] == reports[k]
  {
    map k | k in reports && !(reports[k].id == reportId && k.0 == user) :: reports[k]
  }

  /** Another user's report is never deleted, whatever id is given. */
  lemma DeleteSparesOthers(reports: map<(UserId, Date), Report>, user: UserId, reportId: string, k: (UserId, Date))
    requires k in reports && k.0 != user
    ensures k in DeleteOwned(reports, user, reportId) && DeleteOwned(reports, user, reportId)[k] == reports[k]
  {
  }

  /** `deleteReport(reportId)`: only a row with that id owned by the caller is removed. */
  method DeleteReport(db: Store, session: Option<UserId>, reportId: string, deleteOk: bool) returns (result: ActionResult)
    requires db.Valid()
    modifies db
    ensures db.Valid()
    ensures db.profiles == old(db.profiles) && db.identities == old(db.identities)
    ensures session.None? ==> result == Failure(NotAuthenticated) && db.reports == old(db.reports)
    ensures session.Some? && !deleteOk ==> result == Failure(DeleteFailed) && db.reports == old(db.reports)
    ensures session.Some? && deleteOk ==>
      result == Success(None) && db.reports == DeleteOwned(old(db.reports), session.value, reportId)
  {
    if session.None? {
      return Failure(NotAuthenticated);
    }
    if !deleteOk {
      return Failure(DeleteFailed);
    }
    db.reports := DeleteOwned(db.reports, session.value, reportId);
    result := Success(None);
  }

  /** `getMyReport(reportDate)`: the caller's report for the date, or null for no session, no row or an unreadable date. */
  function MyReport(reports: map<(UserId, Date), Report>, session: Option<UserId>, reportDate: string): (r: Option<Report>)
    ensures r.Some? <==> session.Some? && Parse(reportDate).Some? && (session.value, Parse(reportDate).value) in reports
    ensures r.Some? ==> r.value == reports[(session.value, Parse(reportDate).value)]
  {
    if session.None? then None
    else match Parse(reportDate)
      case None => None
      case Some(d) => Reports.ReportByUserAndDate(reports, session.value, d)
  }

  /** What was saved for a date is what the caller reads back for it. */
  lemma SubmitThenRead(reports: map<(UserId, Date), Report>, user: UserId, reportDate: string,
                       yesterday: seq<Task>, today: seq<Task>, notes: string, newId: string, now: Timestamp)
    requires ReportsKeyed(reports) && Parse(reportDate).Some?
    ensures var saved := UpsertReport(reports, user, Parse(reportDate).value, yesterday, today, notes, newId, now);
      var r := MyReport(saved, Some(user), reportDate);
      r.Some? && r.value.yesterdayTasks == yesterday && r.value.todayTasks == today && r.value.notes == NotesColumn(notes)
  {
  }
}
