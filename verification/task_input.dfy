/**
 * components/report/TaskInput.tsx: the editable list of task rows behind
 * one half of the report form. Hours are kept as the text of a number
 * input (empty, or a number) and handed to the form as numbers, the empty
 * text counting as 0. The list never has fewer than one row.
 */
module TaskInput {
  import opened Values
  import opened ReportForm

  /** The value of an `<input type="number">`: empty, or the number typed. */
  datatype HoursField = Blank | Typed(value: real)

  /** `LocalTask`: a row with its hours as input text. */
  datatype Row = Row(name: string, hours: HoursField, completed: Option<bool>)

  const BlankRow: Row := Row("", Blank, None)

  /** `hours === "" ? 0 : Number(hours)`. */
  function HoursValue(h: HoursField): (x: real)
    ensures h.Blank? ==> x == 0.0
    ensures h.Typed? ==> x == h.value
  {
    match h
    case Blank => 0.0
    case Typed(v) => v
  }

  /** The initial text of a stored number: 0 shows as an empty field. */
  function HoursText(x: real): (h: HoursField)
    ensures HoursValue(h) == x
    ensures h.Blank? <==> x == 0.0
  {
    if x == 0.0 then Blank else Typed(x)
  }

  /** A row as the parent form receives it. */
  function ToFormTask(r: Row): (t: FormTask)
    ensures t.name == r.name && t.completed == r.completed && t.hours == HoursValue(r.hours)
  {
    FormTask(r.name, HoursValue(r.hours), r.completed)
  }

  function ToFormTasks(rows: seq<Row>): (ts: seq<FormTask>)
    ensures |ts| == |rows|
    ensures forall i :: 0 <= i < |rows| ==> ts[i] == ToFormTask(rows[i])
  {
    seq(|rows|, i requires 0 <= i < |rows| => ToFormTask(rows[i]))
  }

  /** The initial rows: one per given task, or a single blank row when none is given. */
  function InitialRows(initial: seq<FormTask>): (rows: seq<Row>)
    ensures |rows| >= 1
    ensures initial == [] ==> rows == [BlankRow]
    ensures initial != [] ==> ToFormTasks(rows) == initial
  {
    if initial == [] then
      [BlankRow]
    else
      seq(|initial|, i requires 0 <= i < |initial| =>
        Row(initial[i].name, HoursText(initial[i].hours), initial[i].completed))
  }

  /** The total shown under the rows: the sum of the hours of all rows. */
  function RowsTotal(rows: seq<Row>): real {
    if rows == [] then 0.0 else RowsTotal(rows[..|rows| - 1]) + HoursValue(rows[|rows| - 1].hours)
  }

  function FormTotal(tasks: seq<FormTask>): real {
    if tasks == [] then 0.0 else FormTotal(tasks[..|tasks| - 1]) + tasks[|tasks| - 1].hours
  }

  /** The shown total is the total of the hours the parent form receives. */
  lemma {:induction false} TotalMatchesForm(rows: seq<Row>)
    ensures RowsTotal(rows) == FormTotal(ToFormTasks(rows))
    decreases |rows|
  {
    if rows != [] {
      var init := rows[..|rows| - 1];
      TotalMatchesForm(init);
      assert ToFormTasks(rows)[..|rows| - 1] == ToFormTasks(init);
    }
  }

  /** Which field an edit changes and the new value. */
  datatype Edit = EditName(name: string) | EditHours(hours: HoursField) | EditCompleted(done: bool)

  function ApplyEdit(r: Row, e: Edit): (r': Row)
    ensures e.EditName? ==> r' == r.(name := e.name)
    ensures e.EditHours? ==> r' == r.(hours := e.hours)
    ensures e.EditCompleted? ==> r' == r.(completed := Some(e.done))
  {
    match e
    case EditName(n) => r.(name := n)
    case EditHours(h) => r.(hours := h)
    case EditCompleted(d) => r.(completed := Some(d))
  }

  class TaskRows {
    var rows: seq<Row>

    ghost predicate Valid()
      reads this
    {
      |rows| >= 1
    }

    constructor(initial: seq<FormTask>)
      ensures Valid()
      ensures rows == InitialRows(initial)
    {
      rows := InitialRows(initial);
    }

    /** The displayed total. */
    function Total(): real
      reads this
    {
      RowsTotal(rows)
    }

    /**
     * `handleTaskChange(index, field, value)`: only the named field of the
     * row at `index` changes; the new list is handed to the parent as numbers.
     */
    method ChangeTask(index: int, e: Edit) returns (emitted: seq<FormTask>)
      requires Valid() && 0 <= index < |rows|
      modifies this
      ensures Valid()
      ensures |rows| == |old(rows)|
      ensures rows[index] == ApplyEdit(old(rows)[index], e)
      ensures forall i :: 0 <= i < |rows| && i != index ==> rows[i] == old(rows)[i]
      ensures emitted == ToFormTasks(rows)
    {
      rows := rows[index := ApplyEdit(rows[index], e)];
      emitted := ToFormTasks(rows);
    }

    /** `addTask`: one blank row is appended and every other row is kept. */
    method AddTask() returns (emitted: seq<FormTask>)
      requires Valid()
      modifies this
      ensures Valid()
      ensures rows == old(rows) + [BlankRow]
      ensures emitted == ToFormTasks(old(rows)) + [FormTask("", 0.0, None)]
    {
      rows := rows + [BlankRow];
      emitted := ToFormTasks(rows);
    }

    /**
     * `removeTask(index)`: the last remaining row is replaced by a blank row;
     * otherwise the row at `index` is removed and the others keep their order
     * (an index outside the list removes nothing).
     */
    method RemoveTask(index: int) returns (emitted: seq<FormTask>)
      requires Valid()
      modifies this
      ensures Valid()
      ensures |old(rows)| == 1 ==> rows == [BlankRow]
      ensures |old(rows)| > 1 && 0 <= index < |old(rows)| ==>
        rows == old(rows)[..index] + old(rows)[index + 1..] && |rows| == |old(rows)| - 1
      ensures |old(rows)| > 1 && !(0 <= index < |old(rows)|) ==> rows == old(rows)
      ensures emitted == ToFormTasks(rows)
    {
      if |rows| == 1 {
        rows := [BlankRow];
      } else if 0 <= index < |rows| {
        rows := rows[..index] + rows[index + 1..];
      }
      emitted := ToFormTasks(rows);
    }
  }

  /** An added blank row adds nothing to the total. */
  lemma AddedRowAddsNothing(rows: seq<Row>)
    ensures RowsTotal(rows + [BlankRow]) == RowsTotal(rows)
  {
    assert (rows + [BlankRow])[..|rows|] == rows;
  }
}
