/** The edit-task dialog: the date input, the holiday guard and the updated task it hands back. */
module TaskEditing {
  import opened Common
  import opened Strings
  import opened Dates
  import opened Holidays

  datatype Task = Task(id: string, name: string, description: string, date: Instant,
                       start: Instant, end: Instant, contractorId: string, projectId: string, title: string)

  /** `iso.split('T')[0]`: the date input's value for an ISO timestamp. */
  function DatePart(iso: string): (d: string)
    ensures 'T' !in d && |d| <= |iso| && d == iso[..|d|]
    ensures |d| < |iso| ==> iso[|d|] == 'T'
  {
    Split(iso, 'T')[0]
  }

  /** For a timestamp `YYYY-MM-DDTHH:mm:ss.sssZ` the date part is `YYYY-MM-DD`. */
  lemma DatePartOfIsoString(day: string, time: string)
    requires 'T' !in day
    ensures DatePart(day + "T" + time) == day
  {
    assert day + "T" + time == day + (['T'] + time);
    IndexOfAfter(day, ['T'] + time, 'T');
    assert (day + "T" + time)[..|day|] == day;
  }

  function HolidayError(h: Holiday): string
  {
    "Cannot schedule on holiday: " + h.name
  }

  class TaskModal {
    var task: Task
    var holidays: seq<Holiday>
    var name: string
    var description: string
    var date: string
    var contractorId: string
    var error: string

    /** The initial form state: the task's fields, and its start as the date input's value. */
    constructor (task: Task, holidays: seq<Holiday>, iso: Instant -> string)
      ensures this.task == task && this.holidays == holidays
      ensures name == task.name && description == task.description && contractorId == task.contractorId
      ensures date == DatePart(iso(task.start)) && error == ""
    {
      this.task, this.holidays := task, holidays;
      name, description, contractorId := task.name, task.description, task.contractorId;
      date := DatePart(iso(task.start));
      error := "";
    }

    /** The effect on `[task]`: the form fields are reset from the new task; the error stays. */
    method TaskChanged(t: Task, iso: Instant -> string)
      modifies this`task, this`name, this`description, this`date, this`contractorId
      ensures task == t && name == t.name && description == t.description && contractorId == t.contractorId
      ensures date == DatePart(iso(t.start))
    {
      task := t;
      name, description, contractorId := t.name, t.description, t.contractorId;
      date := DatePart(iso(t.start));
    }

    /** A re-render with a new `holidays` prop: the guard uses the new list; the form keeps its inputs. */
    method HolidaysChanged(hs: seq<Holiday>)
      modifies this`holidays
      ensures holidays == hs
    {
      holidays := hs;
    }

    /** `handleSubmit`. `parse` is `new Date(date)`. Returns the task passed to `onUpdate`, if it is called. */
    method HandleSubmit(parse: string -> Instant) returns (updated: Option<Task>)
      modifies this`error
      ensures var selected := parse(date);
              match FindOnDay(holidays, selected)
              case Some(h) => error == HolidayError(h) && updated.None?
              case None =>
                && error == "" && updated.Some?
                && updated.value.start == selected && updated.value.end == selected
                && updated.value.name == name && updated.value.description == description
                && updated.value.contractorId == contractorId
                && updated.value.id == task.id && updated.value.projectId == task.projectId
                && updated.value.title == task.title && updated.value.date == task.date
      ensures updated.Some? ==> forall h :: h in holidays ==> !SameDay(h.date, updated.value.start)
    {
      error := "";
      var selectedDate := parse(date);
      var holiday := FindOnDay(holidays, selectedDate);
      if holiday.Some? {
        error := HolidayError(holiday.value);
        return None;
      }
      updated := Some(task.(name := name, description := description, start := selectedDate,
                            end := selectedDate, contractorId := contractorId));
    }
  }
}
