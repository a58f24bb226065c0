# Project Scheduler — a Dafny model of its screens

Project Scheduler is a web application for planning work. Users keep projects, put tasks on a
calendar for contractors, keep a list of holidays on which no task may be scheduled, and write
notes, guidelines and an error log. Every screen is a React component. It holds lists and form
fields as state and changes them in event handlers that call a hosted document database and a
hosted authentication service.

This project models those handlers. Each screen that keeps a list or form fields (holidays, task
form, task dialog, projects, notes, contractors, guidelines, error log) is a Dafny `class`: its state variables are
fields, and each handler is a `method` whose `modifies` clause names the state it may set. Each
method's `ensures` clause states the complete new state. The login and registration screens are the
exception: their one handler reads the inputs once and only sets the error or navigates, so
each is a pure `Submit` function from the inputs and the authentication outcome to the message
and the route. The logic the handlers share is written
as pure functions with lemmas proved about them:

- the `trim()` guard;
- the domain taken from an e-mail address;
- the calendar-day comparison;
- the duplicate and conflict look-ups;
- "remove by id" and "update by id";
- the login and sign-up error messages.

Two handlers are genuinely imperative. The holiday import loop and the in-place date sort are a
`for` loop and an array algorithm with their invariants.

## How the backend and the browser are represented

- **Backend replies are parameters.** A write is answered by `Written(id)`, which carries the id
  the backend assigned, or by `WriteFailed`. A delete or update is answered by a `bool`. A query
  is answered by `Some(documents)` or by `None` when it is rejected. The batch import takes a
  sequence of write replies and uses them in order.
- **A query's equality filter is applied by the model.** When a load is given documents, the
  model keeps those that match the query's `where` clauses.
- **Instants are milliseconds since the epoch** (`Dates.Instant`). A calendar day is the UTC day
  number `t / 86_400_000`.
- **Browser date functions are parameters.** `new Date(string)`, `toISOString()` and
  `toLocaleDateString()` are function-typed parameters: `parse`, `iso` and `showDate`.
- **`trim()` uses ECMAScript's whitespace set.** `split` on one character is modelled exactly,
  and its `Join` round trip is proved. The e-mail domain is read directly off the first two
  '@' characters, and `Session.EmailDomainIsSplit` proves that this is `split('@')[1] || ''`.

Behaviour of the code worth knowing:

- **Notes are loaded by a one-shot query.** No live subscription is used.
- **A failed write in four screens shows nothing.** In the holiday, note, guideline and error-log
  screens, the rejection is not caught, so the list and the inputs stay as they were and no
  message appears.
- **Duplicates are checked only against the old list.** During a holiday import, the duplicate
  test looks only at the holidays that existed before the import started. An entry that occurs
  twice in one feed is therefore written twice (`Holidays.InBatchDuplicatesKept`).
- **The day comparison uses `toDateString()`**, which is a local-time calendar day. The model
  uses the UTC day: it is the same comparison when the browser runs in UTC.

## Model

| member | source | states |
|---|---|---|
| Strings.TrimStart | src/components/HolidayManager.tsx:71 | the result is a suffix of the input, everything removed is ECMAScript whitespace, and the result does not start with whitespace |
| Strings.TrimEnd | src/components/HolidayManager.tsx:71 | the result is a prefix of the input, everything removed is whitespace, and the result does not end with whitespace |
| Strings.HasTextIff | src/components/HolidayManager.tsx:71 | the guard holds exactly when `s.trim()` is non-empty, and exactly when `s` has a character that is not whitespace |
| Strings.IndexOf | src/components/ProjectManager.tsx:35 | the position of the first occurrence of the character, or the length when it does not occur |
| Strings.Split | src/components/ProjectManager.tsx:35 | `split(sep)` returns at least one part; there is one part exactly when `sep` does not occur; the first part is the text before the first `sep` |
| Strings.SplitJoin | src/components/ProjectManager.tsx:35 | joining the parts of a split with the separator gives back the string |
| Strings.SplitPartsHaveNoSep | src/components/ProjectManager.tsx:35 | no part of a split contains the separator |
| Strings.SplitSecond | src/components/ProjectManager.tsx:35 | when `sep` occurs, the second part is the text between the first `sep` and the next one |
| Strings.SecondPart | src/components/ProjectManager.tsx:35 | the text after the first separator up to the next one never contains the separator |
| Strings.SecondPartIsSplit | src/components/ProjectManager.tsx:35 | that text is `split(sep)[1]`, or empty when the split has a single part |
| Session.EmailDomain | src/components/ProjectManager.tsx:35 | `email?.split('@')[1] \|\| ''` never contains '@' |
| Session.EmailDomainIsSplit | src/components/ProjectManager.tsx:35 | the domain is exactly `email.split('@')[1] \|\| ''` |
| Session.NoAtNoDomain | src/components/ProjectManager.tsx:35 | an address without '@' has the empty domain |
| Session.DomainAfterFirstAt | src/components/ContractorForm.tsx:25 | the domain of `local@domain…` is the text between the first '@' and the next one |
| Dates.Day | src/components/HolidayManager.tsx:54 | the calendar day of an instant is the day whose 24-hour interval contains the instant |
| Dates.TimeOfDayIrrelevant | src/components/TaskForm.tsx:44 | two instants of the same day are the same calendar day whatever their time of day |
| Dates.DayUnique | src/components/TaskModal.tsx:32 | an instant inside a day's interval has that day as its calendar day |
| Seqs.Find | src/components/HolidayManager.tsx:73-76 | `find` returns none exactly when no element passes the test, and otherwise the first element that passes |
| Seqs.Filter | src/components/HolidayManager.tsx:94 | `filter` keeps exactly the elements that pass the test and is never longer than its input |
| Seqs.FilterCounts | src/components/HolidayManager.tsx:94 | `filter` keeps each passing element as many times as it occurs and drops every other one |
| Seqs.FilterAppend | src/components/ProjectManager.tsx:105 | filtering a concatenation filters each part, so the kept elements stay in their original order |
| Seqs.Select | src/components/HolidayManager.tsx:26-33 | mapping the documents a query returns gives exactly the images of the documents that match the filter, one per kept document and in the order `filter` keeps them |
| Seqs.RemoveByKey | src/components/HolidayManager.tsx:94 | `filter(x => x.id !== id)` keeps exactly the entries with another id |
| Seqs.RemoveAbsentKey | src/components/Notes.tsx:49 | removing an id that no entry has leaves the list unchanged |
| Seqs.RemoveUniqueKey | src/components/GuidelinesLog.tsx:44 | when ids are unique, deleting entry `k`'s id removes exactly that entry and keeps the order of the rest |
| Seqs.RemoveKeepsUnique | src/components/ErrorLog.tsx:44 | deleting keeps ids unique |
| Seqs.AppendFreshKeepsUnique | src/components/Notes.tsx:42 | appending an entry whose id is new keeps ids unique |
| Holidays.FindOnDay | src/components/TaskForm.tsx:43-45 | the conflict check returns none exactly when no holiday is on the calendar day of the date, and otherwise the first holiday on that day |
| Holidays.FindDuplicate | src/components/HolidayManager.tsx:73-76 | none exactly when no holiday has the same name on the same calendar day; otherwise a holiday in the list with that name and day |
| Holidays.UserHolidays | src/components/HolidayManager.tsx:22-36 | the loaded holidays are exactly the documents whose `userId` is the user's, as `{id, name, date}` |
| Holidays.StoredHolidayIsLoaded | src/components/HolidayManager.tsx:78-83 | a holiday written for a user is among the holidays the next load for that user returns |
| Holidays.CandidatesIff | src/components/HolidayManager.tsx:51-56 | an entry of the feed is written exactly when no old holiday has its name on its calendar day |
| Holidays.CompletedWrites | src/components/HolidayManager.tsx:57-61 | the writes that succeed before the first rejected one: all of them succeeded, and the next one (if any remain) was rejected |
| Holidays.ImportStops | src/components/HolidayManager.tsx:51-64 | a write rejected while handling the k-th candidate stops the import after exactly k successful writes of the first k candidates |
| Holidays.ImportedAreNew | src/components/HolidayManager.tsx:48-67 | a complete import adds no holiday that has a same-name, same-day match among the old ones |
| Holidays.InBatchDuplicatesKept | src/components/HolidayManager.tsx:52-56 | an entry that appears twice in one feed and is new to the old list is written twice |
| Holidays.CandidatesStepNew | src/components/HolidayManager.tsx:56-62 | a new entry of the feed becomes the next candidate |
| Holidays.CandidatesStepDuplicate | src/components/HolidayManager.tsx:52-56 | a duplicate entry of the feed leaves the candidates as they were |
| Holidays.WriteNewHolidays | src/components/HolidayManager.tsx:50-64 | the loop pushes, in feed order, each candidate with the id of its write, up to the first rejected write, and reports whether it reached the end |
| Holidays.Sink | src/components/HolidayManager.tsx:125 | one insertion step: a sorted prefix grows by one element, the rest of the array is untouched and the contents are a permutation |
| Holidays.SortByDate | src/components/HolidayManager.tsx:125 | `holidays.sort` by date leaves the array in date order and a permutation of its old contents |
| Holidays.HolidayManager.constructor | src/components/HolidayManager.tsx:13-15 | an empty list and empty inputs |
| Holidays.HolidayManager.FetchHolidays | src/components/HolidayManager.tsx:22-36 | with a user, the list becomes that user's holidays; without one, or when the query is rejected, the list stays |
| Holidays.HolidayManager.AddHoliday | src/components/HolidayManager.tsx:69-90 | with non-blank name, a date and a user: a same-name, same-day holiday raises the alert and changes nothing; a rejected write changes nothing; otherwise one holiday with the new id is appended and both inputs are cleared; with unique ids and a fresh new id the ids stay unique |
| Holidays.HolidayManager.AddFederalHolidays | src/components/HolidayManager.tsx:48-67 | with a user: the stored documents are the written candidates; the list becomes old list + new holidays when every write succeeds and stays otherwise |
| Holidays.HolidayManager.DeleteHoliday | src/components/HolidayManager.tsx:92-95 | after the backend deletes, exactly the entries with that id are removed; unique ids stay unique |
| Holidays.HolidayManager.SortForDisplay | src/components/HolidayManager.tsx:125 | the state list is sorted by date in place and keeps its contents |
| TaskCreation.TaskForm.constructor | src/components/TaskForm.tsx:9-15 | empty inputs, no holidays, no error |
| TaskCreation.TaskForm.FetchData | src/components/TaskForm.tsx:20-41 | with a user, the holidays become that user's holidays |
| TaskCreation.TaskForm.HandleSubmit | src/components/TaskForm.tsx:47-80 | the checks run in order (login and project, holiday conflict, write), each failure shows its own message and writes nothing; success stores exactly `{name, description, date, contractorId, userId, projectId}` and navigates to `/calendar/<projectId>`; a stored task is never on a holiday's calendar day |
| TaskEditing.DatePart | src/components/TaskModal.tsx:16 | `iso.split('T')[0]` is the longest prefix without 'T' |
| TaskEditing.DatePartOfIsoString | src/components/TaskModal.tsx:16 | for `YYYY-MM-DD` + `T` + time, the date part is `YYYY-MM-DD` |
| TaskEditing.TaskModal.constructor | src/components/TaskModal.tsx:14-18 | the form starts with the task's fields, the date part of its start, and no error |
| TaskEditing.TaskModal.HolidaysChanged | src/components/TaskModal.tsx:10-13 | a new `holidays` prop replaces the list the holiday guard reads; the form's inputs and error are kept |
| TaskEditing.TaskModal.TaskChanged | src/components/TaskModal.tsx:20-25 | a new task resets name, description, date and contractor; the error is kept |
| TaskEditing.TaskModal.HandleSubmit | src/components/TaskModal.tsx:27-47 | a holiday on the selected day sets "Cannot schedule on holiday: <name>" and calls no update; otherwise the update is the task with the form's fields and start = end = the selected date, and every other field kept |
| Projects.QueryScope | src/components/ProjectManager.tsx:35-47 | users of `reconenterprises.net` query by that domain, and everyone else by creator |
| Projects.VisibleProjects | src/components/ProjectManager.tsx:40-57 | the loaded projects are exactly those of the group domain (for its members) or those the user created (for everyone else) |
| Projects.Controls | src/components/ProjectManager.tsx:149-160 | a row has Delete exactly when the user created the project, and is tagged "(Group Project)" exactly when not |
| Projects.CreatedProjectIsVisible | src/components/ProjectManager.tsx:74-91 | a project the user creates is found by the user's next query |
| Projects.PersonalListHasNoGroupProjects | src/components/ProjectManager.tsx:44-47 | outside the group domain every listed row can be deleted and none is tagged |
| Projects.GroupListControls | src/components/ProjectManager.tsx:41-42 | in the group domain a tagged row is a colleague's project of that domain, and only the user's own rows can be deleted |
| Projects.ProjectManager.constructor | src/components/ProjectManager.tsx:16-19 | no projects, empty input, no error, loading |
| Projects.ProjectManager.UserChanged | src/components/ProjectManager.tsx:22-29 | with a user, the projects are fetched; without one, loading stops and the log-in message is shown |
| Projects.ProjectManager.FetchProjects | src/components/ProjectManager.tsx:31-67 | the list becomes the visible projects and the error clears, or a rejected query shows the load message and keeps the list; loading ends either way |
| Projects.ProjectManager.AddProject | src/components/ProjectManager.tsx:69-99 | with a non-blank name and a user, success appends exactly the created project, clears the input and the error; failure shows the create message and keeps the list and the input; otherwise nothing changes; with unique ids and a fresh new id the ids stay unique |
| Projects.ProjectManager.DeleteProject | src/components/ProjectManager.tsx:101-113 | success removes exactly the projects with that id and clears the error; failure shows the delete message and keeps the list; unique ids stay unique |
| ProjectNotes.LoadedNotes | src/components/Notes.tsx:21-31 | the loaded notes are exactly the documents of this user and this project |
| ProjectNotes.StoredNoteIsLoaded | src/components/Notes.tsx:36-41 | a stored note is found by the next load for its user and project, with the stored timestamp |
| ProjectNotes.NotesStayInTheirProject | src/components/Notes.tsx:24 | a load for one project returns no note stored for another |
| ProjectNotes.UpdateContent | src/components/Notes.tsx:54 | editing keeps length, ids and timestamps, and sets the content of exactly the notes with that id |
| ProjectNotes.UpdateLastWins | src/components/Notes.tsx:52-55 | two edits of the same note leave only the last content |
| ProjectNotes.UpdateAbsent | src/components/Notes.tsx:54 | editing an id no note has changes nothing |
| ProjectNotes.UpdateKeepsUnique | src/components/Notes.tsx:54 | editing keeps ids unique |
| ProjectNotes.Notes.constructor | src/components/Notes.tsx:17-18 | no notes, empty input |
| ProjectNotes.Notes.FetchNotes | src/components/Notes.tsx:21-31 | with a user and a project id, the notes become the loaded notes |
| ProjectNotes.Notes.AddNote | src/components/Notes.tsx:33-45 | with non-blank text, a user and a project, a successful write stores the document and appends one note with the new id and clears the input; otherwise nothing changes; with unique ids and a fresh new id the ids stay unique |
| ProjectNotes.Notes.DeleteNote | src/components/Notes.tsx:47-50 | after the backend deletes, exactly the notes with that id are removed; unique ids stay unique |
| ProjectNotes.Notes.UpdateNote | src/components/Notes.tsx:52-55 | after the backend updates, the notes become the edited list; unique ids stay unique |
| Contractors.ContractorForm.constructor | src/components/ContractorForm.tsx:9-13 | empty name, colour `#000000`, no error |
| Contractors.ContractorForm.HandleSubmit | src/components/ContractorForm.tsx:15-41 | the error is cleared first; no user shows the log-in message; a rejected write shows the create message and keeps the list; success appends `{id, name, color, userId, domain}` and resets name and colour to their initial values; with unique ids and a fresh new id the ids stay unique |
| Contractors.ContractorForm.DeleteContractor | src/components/ContractorForm.tsx:43-51 | success removes exactly the contractors with that id; failure shows the delete message and keeps the list; unique ids stay unique |
| Guidelines.LoadedGuidelines | src/components/GuidelinesLog.tsx:17-27 | the loaded guidelines are exactly the user's documents |
| Guidelines.StoredGuidelineIsLoaded | src/components/GuidelinesLog.tsx:32-37 | a stored guideline is found by the next load for its user |
| Guidelines.GuidelinesLog.constructor | src/components/GuidelinesLog.tsx:13-14 | no guidelines, empty input |
| Guidelines.GuidelinesLog.FetchGuidelines | src/components/GuidelinesLog.tsx:17-27 | with a user, the list becomes the loaded guidelines |
| Guidelines.GuidelinesLog.AddGuideline | src/components/GuidelinesLog.tsx:29-40 | with non-blank text and a user, a successful write appends one guideline with the new id and clears the input; otherwise nothing changes; with unique ids and a fresh new id the ids stay unique |
| Guidelines.GuidelinesLog.DeleteGuideline | src/components/GuidelinesLog.tsx:42-45 | after the backend deletes, exactly the guidelines with that id are removed; unique ids stay unique |
| ErrorLogs.LoadedEntries | src/components/ErrorLog.tsx:17-27 | the loaded entries are exactly the user's documents |
| ErrorLogs.StoredEntryIsLoaded | src/components/ErrorLog.tsx:32-37 | a stored entry is found by the next load for its user |
| ErrorLogs.ErrorLog.constructor | src/components/ErrorLog.tsx:13-14 | no entries, empty input |
| ErrorLogs.ErrorLog.FetchErrors | src/components/ErrorLog.tsx:17-27 | with a user, the list becomes the loaded entries |
| ErrorLogs.ErrorLog.AddError | src/components/ErrorLog.tsx:29-40 | with a non-blank message and a user, a successful write appends one entry with the new id and clears the input; otherwise nothing changes; with unique ids and a fresh new id the ids stay unique |
| ErrorLogs.ErrorLog.DeleteError | src/components/ErrorLog.tsx:42-45 | after the backend deletes, exactly the entries with that id are removed; unique ids stay unique |
| LoginScreen.CauseOf | src/components/Login.tsx:23-42 | only a non-provider error is unexpected; an unknown provider code keeps the provider's message |
| LoginScreen.ErrorMessage | src/components/Login.tsx:22-42 | every rejection shows a non-empty message |
| LoginScreen.MessageByCause | src/components/Login.tsx:24-42 | the four known codes each show their fixed message, other codes show "Login failed: " + the provider message, and anything else shows the generic message |
| LoginScreen.PrefixedIffOtherProvider | src/components/Login.tsx:37-38 | only unknown provider codes produce a message starting like "Login failed: " |
| LoginScreen.MessageIdentifiesCause | src/components/Login.tsx:24-42 | two rejections show the same message exactly when they fall into the same case |
| LoginScreen.Submit | src/components/Login.tsx:13-44 | the error is cleared; success navigates to `/` with no error; a rejection shows its message and does not navigate |
| LoginScreen.ErrorIffStays | src/components/Login.tsx:15-42 | after a submit an error is shown exactly when no navigation happened |
| Registration.CauseOf | src/components/Register.tsx:29-45 | only a non-provider error is unexpected; an unknown provider code keeps the provider's message |
| Registration.ErrorMessage | src/components/Register.tsx:27-46 | every rejection shows a non-empty message |
| Registration.MessageByCause | src/components/Register.tsx:31-45 | the three known codes each show their fixed message, other codes show "Registration failed: " + the provider message, and anything else shows the generic message |
| Registration.PrefixedIffOtherProvider | src/components/Register.tsx:40-41 | only unknown provider codes produce a message starting like "Registration failed: " |
| Registration.MessageIdentifiesCause | src/components/Register.tsx:31-45 | two rejections show the same message exactly when they fall into the same case |
| Registration.Submit | src/components/Register.tsx:14-47 | a differing confirmation shows "Passwords do not match"; otherwise success navigates to `/` with no error, and a rejection shows its message without navigating |
| Registration.MismatchSkipsSignup | src/components/Register.tsx:18-20 | with a differing confirmation the outcome is the same whatever `signup` would do: it is never called |
| Registration.MismatchIsNotARejection | src/components/Register.tsx:18-45 | the mismatch message differs from every rejection message |

## Left out

- The database calls (`getDocs`, `addDoc`, `deleteDoc`, `updateDoc`) are foreign code. Their replies are parameters, and no property of the backend itself is modelled. In particular, that a new id is fresh is a hypothesis of `Seqs.AppendFreshKeepsUnique` and of the add handlers' uniqueness clauses, not a fact, and that a loaded list has unique ids is not proved; the holiday import does not state uniqueness, because it would also need the ids of one batch to differ from each other.
- Loaded notes, guidelines and error-log entries are not converted (src/components/Notes.tsx:26, GuidelinesLog.tsx:22, ErrorLog.tsx:22 keep `{ id: doc.id, ...doc.data() }`), so a loaded `timestamp` is the database's `Timestamp` while a locally added one is a `Date`. Only rendering reads these fields, and the model gives both an instant.
- Extra document fields that a loaded `{ id, ...doc.data() }` record keeps at run time are dropped, because no screen reads them.
- The authentication wrappers and the auth-state subscription (src/contexts/AuthContext.tsx) are library calls. The signed-in user is a parameter, and a login or sign-up outcome is a function-typed parameter.
- src/components/Calendar.tsx is not part of this model. It is fetch glue around a calendar component from a library, its event handlers are elided in the source, and the month grid is computed inside that library.
- The public-holiday fetch from date.nager.at (src/components/HolidayManager.tsx:38-46) is network I/O. `AddFederalHolidays` takes the fetched list as input.
- Time zones and date parsing are not modelled. `toDateString` is a local-time day, while the model uses the UTC day. `new Date(string)`, `toISOString` and `toLocaleDateString` are parameters, so an invalid date is whatever `parse` returns.
- Async interleavings and stale closures are not modelled. Each handler runs to completion on the state it started with. The difference between `setX(prev => …)` and setting a captured `x` is therefore not visible, and neither are overlapping submits.
- `Projects.ProjectManager.AddProject` does not run the un-awaited `fetchProjects()` at src/components/ProjectManager.tsx:91. A caller that wants the reload calls `FetchProjects` afterwards. The `loading` flag that the pending re-fetch would set is not modelled.
- The contractor list of the task form (src/components/TaskForm.tsx:23, 31) is loaded but only rendered, so it is not modelled.
- The contractor context's own fetch (src/contexts/ContractorContext.tsx) is not modelled. `ContractorForm` receives the shared list in its constructor.
- Rendering, routing and configuration (Header, App, main, ContractorList, vite.config.ts) have no behaviour to state.
- `Holidays.SortByDate`: the stability of the JavaScript sort is not stated. Only order and permutation are.
- `Holidays.HolidayManager.SortForDisplay`: `sort` mutates the state array itself, which React shares with the previous render. The model copies the list into an array, sorts it, and assigns it back, so that aliasing is not captured.
- `console.log` and `console.error` diagnostics are left out.
