/**
 * The figures components/dashboard/UserReportCard.tsx derives from one
 * dashboard summary: yesterday's tasks split into carry-over (not
 * completed) and completed ones, and the actual hours of each group.
 */
module UserReportCard {
  import opened Values
  import opened Schema
  import opened Reports

  /** `task.completed` read as a condition: only an explicit `true` counts. */
  predicate IsCompleted(t: Task) {
    OrFalse(t.completed)
  }

  /** Those of `tasks` whose completion flag is `done`, in their original order. */
  function WithCompletion(tasks: seq<Task>, done: bool): (r: seq<Task>)
    ensures forall i :: 0 <= i < |r| ==> IsCompleted(r[i]) == done
    ensures forall t :: t in r <==> t in tasks && IsCompleted(t) == done
  {
    if tasks == [] then []
    else
      var rest := WithCompletion(tasks[..|tasks| - 1], done);
      var last := tasks[|tasks| - 1];
      assert forall t :: t in tasks <==> t in tasks[..|tasks| - 1] || t == last;
      if IsCompleted(last) == done then rest + [last] else rest
  }

  /** `tasks.filter(t => !t.completed)`. */
  function CarryoverTasks(tasks: seq<Task>): seq<Task> {
    WithCompletion(tasks, false)
  }

  /** `tasks.filter(t => t.completed)`. */
  function CompletedTasks(tasks: seq<Task>): seq<Task> {
    WithCompletion(tasks, true)
  }

  /** The card's hour figure for one task: `actual_hours || 0`, never the planned hours. */
  function ActualHours(t: Task): (h: real)
    ensures TruthyNum(t.actualHours) ==> h == t.actualHours.value
    ensures !TruthyNum(t.actualHours) ==> h == 0.0
  {
    OrNum(t.actualHours, 0.0)
  }

  function ActualHoursSum(tasks: seq<Task>): real {
    if tasks == [] then 0.0 else ActualHoursSum(tasks[..|tasks| - 1]) + ActualHours(tasks[|tasks| - 1])
  }

  /** The figures the card shows. */
  datatype CardFigures = CardFigures(
    isSubmitted: bool,
    isAdmin: bool,
    carryover: seq<Task>,
    completed: seq<Task>,
    today: seq<Task>,
    carryoverHours: real,
    completedHours: real)

  function Figures(s: ReportSummary): (c: CardFigures)
    ensures c.isSubmitted <==> s.hasSubmitted
    ensures c.isAdmin <==> s.userRole == Admin
    ensures c.today == s.todayTasks
    ensures c.carryoverHours + c.completedHours == ActualHoursSum(s.yesterdayTasks)
    ensures |c.carryover| + |c.completed| == |s.yesterdayTasks|
    ensures multiset(c.carryover) + multiset(c.completed) == multiset(s.yesterdayTasks)
    ensures forall t :: t in c.carryover <==> t in s.yesterdayTasks && !IsCompleted(t)
    ensures forall t :: t in c.completed <==> t in s.yesterdayTasks && IsCompleted(t)
    ensures c.carryover == CarryoverTasks(s.yesterdayTasks) && c.completed == CompletedTasks(s.yesterdayTasks)
    ensures c.carryoverHours == ActualHoursSum(c.carryover) && c.completedHours == ActualHoursSum(c.completed)
  {
    var carry := CarryoverTasks(s.yesterdayTasks);
    var done := CompletedTasks(s.yesterdayTasks);
    Partition(s.yesterdayTasks);
    CardFigures(s.hasSubmitted, s.userRole == Admin, carry, done, s.todayTasks,
      ActualHoursSum(carry), ActualHoursSum(done))
  }

  /** Carry-over and completed tasks split the yesterday list: together they hold every task exactly once. */
  lemma Partition(tasks: seq<Task>)
    ensures multiset(CarryoverTasks(tasks)) + multiset(CompletedTasks(tasks)) == multiset(tasks)
    ensures |CarryoverTasks(tasks)| + |CompletedTasks(tasks)| == |tasks|
    ensures ActualHoursSum(CarryoverTasks(tasks)) + ActualHoursSum(CompletedTasks(tasks)) == ActualHoursSum(tasks)
  {
    PartitionCounts(tasks);
    PartitionHours(tasks);
  }

  lemma {:induction false} PartitionCounts(tasks: seq<Task>)
    ensures multiset(CarryoverTasks(tasks)) + multiset(CompletedTasks(tasks)) == multiset(tasks)
    ensures |CarryoverTasks(tasks)| + |CompletedTasks(tasks)| == |tasks|
    decreases |tasks|
  {
    if tasks != [] {
      var init, last := tasks[..|tasks| - 1], tasks[|tasks| - 1];
      PartitionCounts(init);
      assert tasks == init + [last];
      assert multiset(tasks) == multiset(init) + multiset{last};
      if IsCompleted(last) {
        assert CompletedTasks(tasks) == CompletedTasks(init) + [last];
        assert CarryoverTasks(tasks) == CarryoverTasks(init);
      } else {
        assert CarryoverTasks(tasks) == CarryoverTasks(init) + [last];
        assert CompletedTasks(tasks) == CompletedTasks(init);
      }
    }
  }

  lemma {:induction false} PartitionHours(tasks: seq<Task>)
    ensures ActualHoursSum(CarryoverTasks(tasks)) + ActualHoursSum(CompletedTasks(tasks)) == ActualHoursSum(tasks)
    decreases |tasks|
  {
    if tasks != [] {
      var init, last := tasks[..|tasks| - 1], tasks[|tasks| - 1];
      PartitionHours(init);
      if IsCompleted(last) {
        assert CompletedTasks(tasks) == CompletedTasks(init) + [last];
        assert CarryoverTasks(tasks) == CarryoverTasks(init);
        ActualHoursSnoc(CompletedTasks(init), last);
      } else {
        assert CarryoverTasks(tasks) == CarryoverTasks(init) + [last];
        assert CompletedTasks(tasks) == CompletedTasks(init);
        ActualHoursSnoc(CarryoverTasks(init), last);
      }
    }
  }

  lemma ActualHoursSnoc(tasks: seq<Task>, t: Task)
    ensures ActualHoursSum(tasks + [t]) == ActualHoursSum(tasks) + ActualHours(t)
  {
    assert (tasks + [t])[..|tasks|] == tasks;
  }

  /** Filtering distributes over concatenation, which is what keeping the original order means. */
  lemma {:induction false} WithCompletionAppend(a: seq<Task>, b: seq<Task>, done: bool)
    ensures WithCompletion(a + b, done) == WithCompletion(a, done) + WithCompletion(b, done)
    decreases |b|
  {
    if b == [] {
      assert a + b == a;
    } else {
      assert (a + b)[..|a + b| - 1] == a + b[..|b| - 1];
      WithCompletionAppend(a, b[..|b| - 1], done);
    }
  }

  /** The card counts actual hours only: a task with no actual hours contributes nothing, whatever it planned. */
  lemma PlannedHoursIgnored(name: string, planned: real, completed: Option<bool>)
    ensures ActualHoursSum([Task(name, None, Some(planned), completed)]) == 0.0
  {
    assert [Task(name, None, Some(planned), completed)][..0] == [];
  }
}
