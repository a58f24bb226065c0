/** The create-task form: login/project check, then the holiday conflict check, then the write. */
module TaskCreation {
  import opened Common
  import opened Dates
  import opened Session
  import opened Holidays

  /** A document of the `tasks` collection as the form writes it. */
  datatype TaskDoc = TaskDoc(id: string, name: string, description: string, date: Instant,
                             contractorId: string, userId: string, projectId: string)

  const NotLoggedInError: string := "You must be logged in and have a project selected to create a task"
  const CreateFailedError: string := "Failed to create task"

  /** The error naming the conflicting holiday; `showDate` is `toLocaleDateString`. */
  function ConflictError(h: Holiday, showDate: Instant -> string): string
  {
    "Task conflicts with holiday: " + h.name + " on " + showDate(h.date)
  }

  function CalendarRoute(projectId: string): string
  {
    "/calendar/" + projectId
  }

  class TaskForm {
    var name: string
    var description: string
    var date: string
    var contractorId: string
    var holidays: seq<Holiday>
    var error: string

    constructor ()
      ensures name == "" && description == "" && date == "" && contractorId == ""
      ensures holidays == [] && error == ""
    {
      name, description, date, contractorId := "", "", "", "";
      holidays, error := [], "";
    }

    /** The load effect: with a user, the holidays become that user's holidays. */
    method FetchData(user: Option<User>, snapshot: Option<seq<HolidayDoc>>)
      modifies this`holidays
      ensures holidays == if user.Some? && snapshot.Some? then UserHolidays(snapshot.value, user.value.uid)
                          else old(holidays)
    {
      if user.Some? && snapshot.Some? {
        holidays := UserHolidays(snapshot.value, user.value.uid);
      }
    }

    /** `handleSubmit`. `parse` is `new Date(date)`, `reply` the answer to `addDoc`. Returns the
        document the backend stored and the route navigated to. */
    method HandleSubmit(user: Option<User>, projectId: Option<string>, parse: string -> Instant,
                        showDate: Instant -> string, reply: WriteResult)
      returns (stored: Option<TaskDoc>, navigateTo: Option<string>)
      modifies this`error
      ensures !(user.Some? && Present(projectId)) ==>
                error == NotLoggedInError && stored.None? && navigateTo.None?
      ensures user.Some? && Present(projectId) && FindOnDay(holidays, parse(date)).Some? ==>
                error == ConflictError(FindOnDay(holidays, parse(date)).value, showDate) &&
                stored.None? && navigateTo.None?
      ensures user.Some? && Present(projectId) && FindOnDay(holidays, parse(date)).None? ==>
                if reply.WriteFailed? then
                  error == CreateFailedError && stored.None? && navigateTo.None?
                else
                  && error == ""
                  && stored == Some(TaskDoc(reply.id, name, description, parse(date), contractorId,
                                            user.value.uid, projectId.value))
                  && navigateTo == Some(CalendarRoute(projectId.value))
      // a stored task never falls on the calendar day of a holiday
      ensures stored.Some? ==> forall h :: h in holidays ==> !SameDay(h.date, stored.value.date)
    {
      error := "";
      stored, navigateTo := None, None;
      if !(user.Some? && Present(projectId)) {
        error := NotLoggedInError;
        return;
      }
      var taskDate := parse(date);
      var conflicting := FindOnDay(holidays, taskDate);
      if conflicting.Some? {
        error := ConflictError(conflicting.value, showDate);
        return;
      }
      if reply.WriteFailed? {
        error := CreateFailedError;
        return;
      }
      stored := Some(TaskDoc(reply.id, name, description, taskDate, contractorId, user.value.uid, projectId.value));
      navigateTo := Some(CalendarRoute(projectId.value));
    }
  }
}
