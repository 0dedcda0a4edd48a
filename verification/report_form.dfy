/**
 * components/report/ReportForm.tsx: the rows the form starts from (an
 * existing report, else the previous day's plan carried over, else
 * nothing), the submission filter that keeps only tasks with a name and
 * positive hours, and both task lists serialised for the server action.
 */
module ReportForm {
  import opened Values
  import Text
  import opened Schema

  /** `TaskFormData`: one editable row as the form holds it. */
  datatype FormTask = FormTask(name: string, hours: real, completed: Option<bool>)

  /** A row of the yesterday list loaded from a saved task: `actual_hours || 0`, `completed || false`. */
  function FromActual(t: Task): (f: FormTask)
    ensures f.name == t.name && f.completed == Some(OrFalse(t.completed))
    ensures f.hours == OrNum(t.actualHours, 0.0)
  {
    FormTask(t.name, OrNum(t.actualHours, 0.0), Some(OrFalse(t.completed)))
  }

  /** A row carried over from the previous day's plan: `planned_hours || 0`, not completed. */
  function FromCarryover(t: Task): (f: FormTask)
    ensures f.name == t.name && f.completed == Some(false)
    ensures f.hours == OrNum(t.plannedHours, 0.0)
  {
    FormTask(t.name, OrNum(t.plannedHours, 0.0), Some(false))
  }

  /** A row of the today list loaded from a saved task: `planned_hours || 0`, no completion flag. */
  function FromPlanned(t: Task): (f: FormTask)
    ensures f.name == t.name && f.completed.None?
    ensures f.hours == OrNum(t.plannedHours, 0.0)
  {
    FormTask(t.name, OrNum(t.plannedHours, 0.0), None)
  }

  /**
   * `initialYesterdayTasks`: the saved report's yesterday list when a report
   * exists (even an empty one), otherwise the carried-over plan, otherwise nothing.
   */
  function InitialYesterday(existing: Option<Report>, carryover: seq<Task>): (rows: seq<FormTask>)
    ensures existing.Some? ==> |rows| == |existing.value.yesterdayTasks|
    ensures existing.Some? ==> forall i :: 0 <= i < |rows| ==> rows[i] == FromActual(existing.value.yesterdayTasks[i])
    ensures existing.None? ==> |rows| == |carryover|
    ensures existing.None? ==> forall i :: 0 <= i < |rows| ==> rows[i] == FromCarryover(carryover[i])
  {
    if existing.Some? then
      seq(|existing.value.yesterdayTasks|, i requires 0 <= i < |existing.value.yesterdayTasks| =>
        FromActual(existing.value.yesterdayTasks[i]))
    else if |carryover| > 0 then
      seq(|carryover|, i requires 0 <= i < |carryover| => FromCarryover(carryover[i]))
    else []
  }

  /** `initialTodayTasks`: the saved report's today list, or nothing. */
  function InitialToday(existing: Option<Report>): (rows: seq<FormTask>)
    ensures existing.None? ==> rows == []
    ensures existing.Some? ==> |rows| == |existing.value.todayTasks|
    ensures existing.Some? ==> forall i :: 0 <= i < |rows| ==> rows[i] == FromPlanned(existing.value.todayTasks[i])
  {
    if existing.Some? then
      seq(|existing.value.todayTasks|, i requires 0 <= i < |existing.value.todayTasks| =>
        FromPlanned(existing.value.todayTasks[i]))
    else []
  }

  /** `existingReport?.notes || ""`. */
  function InitialNotes(existing: Option<Report>): (notes: string)
    ensures existing.None? ==> notes == ""
    ensures existing.Some? && TruthyText(existing.value.notes) ==> notes == existing.value.notes.value
    ensures existing.Some? && !TruthyText(existing.value.notes) ==> notes == ""
  {
    if existing.Some? then OrText(existing.value.notes, "") else ""
  }

  /** `hasCarryover`: the carry-over notice shows exactly when tasks were carried over into a new report. */
  predicate HasCarryover(existing: Option<Report>, carryover: seq<Task>) {
    |carryover| > 0 && existing.None?
  }

  /** When the notice shows, the yesterday rows are exactly the carried-over plan. */
  lemma CarryoverNoticeMeansCarriedRows(existing: Option<Report>, carryover: seq<Task>)
    requires HasCarryover(existing, carryover)
    ensures |InitialYesterday(existing, carryover)| == |carryover| > 0
    ensures forall i :: 0 <= i < |carryover| ==>
      InitialYesterday(existing, carryover)[i].name == carryover[i].name
      && InitialYesterday(existing, carryover)[i].completed == Some(false)
  {
  }

  /** A task is submitted when its trimmed name is not empty and its hours are positive. */
  predicate IsValidTask(t: FormTask) {
    Text.Trim(t.name) != "" && t.hours > 0.0
  }

  /** `tasks.filter(isValid)`, in order. */
  function ValidTasks(tasks: seq<FormTask>): (r: seq<FormTask>)
    ensures |r| <= |tasks|
    ensures forall i :: 0 <= i < |r| ==> IsValidTask(r[i])
    ensures forall t :: t in r <==> t in tasks && IsValidTask(t)
  {
    if tasks == [] then []
    else
      var rest := ValidTasks(tasks[..|tasks| - 1]);
      var last := tasks[|tasks| - 1];
      assert forall t :: t in tasks <==> t in tasks[..|tasks| - 1] || t == last;
      if IsValidTask(last) then rest + [last] else rest
  }

  /** Filtering distributes over concatenation: valid tasks keep their relative order. */
  lemma {:induction false} ValidTasksAppend(a: seq<FormTask>, b: seq<FormTask>)
    ensures ValidTasks(a + b) == ValidTasks(a) + ValidTasks(b)
    decreases |b|
  {
    if b == [] {
      assert a + b == a;
    } else {
      assert (a + b)[..|a + b| - 1] == a + b[..|b| - 1];
      ValidTasksAppend(a, b[..|b| - 1]);
    }
  }

  /** A yesterday task as sent: `{task_name, actual_hours, completed: completed || false}`. */
  function ToActualTask(t: FormTask): Task {
    Task(t.name, Some(t.hours), None, Some(OrFalse(t.completed)))
  }

  /** A today task as sent: `{task_name, planned_hours}`. */
  function ToPlannedTask(t: FormTask): Task {
    Task(t.name, None, Some(t.hours), None)
  }

  /** The form data `handleSubmit` sends, or the validation error it shows instead. */
  datatype Submission =
    | NothingToSubmit
    | Payload(reportDate: string, yesterdayTasks: seq<Task>, todayTasks: seq<Task>, notes: string)

  /** `handleSubmit`: nothing is sent when neither list has a valid task. */
  function Submit(reportDate: string, yesterday: seq<FormTask>, today: seq<FormTask>, notes: string): (s: Submission)
    ensures s.NothingToSubmit? <==> ValidTasks(yesterday) == [] && ValidTasks(today) == []
    ensures s.Payload? ==>
      s.reportDate == reportDate && s.notes == notes
      && |s.yesterdayTasks| == |ValidTasks(yesterday)| && |s.todayTasks| == |ValidTasks(today)|
      && (forall i :: 0 <= i < |s.yesterdayTasks| ==> s.yesterdayTasks[i] == ToActualTask(ValidTasks(yesterday)[i]))
      && (forall i :: 0 <= i < |s.todayTasks| ==> s.todayTasks[i] == ToPlannedTask(ValidTasks(today)[i]))
  {
    var y := ValidTasks(yesterday);
    var t := ValidTasks(today);
    if |y| == 0 && |t| == 0 then NothingToSubmit
    else
      Payload(reportDate,
        seq(|y|, i requires 0 <= i < |y| => ToActualTask(y[i])),
        seq(|t|, i requires 0 <= i < |t| => ToPlannedTask(t[i])),
        notes)
  }

  /** Every payload passes the server's check that at least one list is non-empty. */
  lemma PayloadNotEmpty(reportDate: string, yesterday: seq<FormTask>, today: seq<FormTask>, notes: string)
    ensures var s := Submit(reportDate, yesterday, today, notes);
      s.Payload? ==> s.yesterdayTasks != [] || s.todayTasks != []
  {
  }

  /**
   * Saving and reopening a report gives back the rows that were sent: the
   * positive hours survive `actual_hours || 0` and `planned_hours || 0`, and
   * the completion flag comes back as an explicit boolean.
   */
  lemma ReloadRoundTrip(r: Report, reportDate: string, yesterday: seq<FormTask>, today: seq<FormTask>, notes: string)
    requires var s := Submit(reportDate, yesterday, today, notes);
      s.Payload? && r.yesterdayTasks == s.yesterdayTasks && r.todayTasks == s.todayTasks
    ensures |InitialYesterday(Some(r), [])| == |ValidTasks(yesterday)|
    ensures forall i :: 0 <= i < |ValidTasks(yesterday)| ==>
      InitialYesterday(Some(r), [])[i]
        == FormTask(ValidTasks(yesterday)[i].name, ValidTasks(yesterday)[i].hours, Some(OrFalse(ValidTasks(yesterday)[i].completed)))
    ensures |InitialToday(Some(r))| == |ValidTasks(today)|
    ensures forall i :: 0 <= i < |ValidTasks(today)| ==>
      InitialToday(Some(r))[i] == FormTask(ValidTasks(today)[i].name, ValidTasks(today)[i].hours, None)
  {
    var y := ValidTasks(yesterday);
    var t := ValidTasks(today);
    var rows, plans := InitialYesterday(Some(r), []), InitialToday(Some(r));
    forall i | 0 <= i < |y|
      ensures rows[i] == FormTask(y[i].name, y[i].hours, Some(OrFalse(y[i].completed)))
    {
      assert y[i].hours > 0.0;
      assert r.yesterdayTasks[i] == ToActualTask(y[i]);
      assert rows[i] == FromActual(ToActualTask(y[i]));
    }
    forall i | 0 <= i < |t|
      ensures plans[i] == FormTask(t[i].name, t[i].hours, None)
    {
      assert t[i].hours > 0.0;
      assert r.todayTasks[i] == ToPlannedTask(t[i]);
      assert plans[i] == FromPlanned(ToPlannedTask(t[i]));
    }
  }
}
