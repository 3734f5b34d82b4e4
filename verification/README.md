# Agenda Fácil task frontend — Dafny model

This project models the decision logic of the Agenda Fácil React frontend,
a personal task agenda with a calendar:

- **The task page** (`TarefasPage`) is an event-driven state machine. User
  actions and task-API replies are input events. Each step yields the next
  page state `(tarefas, error, isLoading, selectedDate, modalOpen, tarefaAtual)`
  and the API requests it issues (`Page`).
- **The derived list** `filteredTarefas` sorts open tasks before completed
  ones, with timed tasks in start order, then keeps only one calendar day
  when a day is selected. The calendar's day marker is modelled with it (`View`).
- **The task form** (`TarefaForm`) covers what opening it fills in, the
  weekday selector, the time inputs and the submit rule. A submit is
  rejected, or saves one task, or sends one recurring payload (`Form`, `TimeText`).
- **The registration page** (`RegisterPage`) checks the password length
  before any request and maps a failed request to a message (`Register`).

Modules: `Wrappers` (Option), `Seqs` (filter, subsequence, pairwise chains,
stable insertion sort), `Tasks` (task record, payloads, status flip), `View`,
`Utf16` (JavaScript string lengths in UTF-16 units), `TimeText`, `Form`,
`Page`, `Register`.

Abstractions:
- A timestamp is an `Instant`: its text as the API sends it, the integer
  instant it parses to, and the local `(year, month, day)` it falls on.
  `new Date(...)` parsing and time zones are not modelled.
- A missing timestamp (`None`) is `null`. A timestamp with empty text is
  `""`. It is falsy on the page (`HasStart`), as `null` is, but a toggle's
  update sends it back as `""` (`Tasks.ToPayload`).
- Ids are `Option<int>`. JavaScript truthiness (`null` and `0` are falsy)
  is written out as `IdTruthy`. The toggle matches ids with `===`, which is
  `Option` equality.
- `window.confirm` is the `confirmed` field of a delete request.
- `setTimeout` becomes a `NavigateLater` effect.
- API replies are events. Nothing concurrent is modelled.

Facts about the program that shape the model:
- The client sends one recurring payload carrying the whole `diasDaSemana`
  list. It never creates one task per weekday itself.
- Deleting is not optimistic. The page removes nothing locally, and it
  reloads only after a successful delete.
- No page handles checklist items. `TaskList.js` renders checkboxes with an
  `onToggleChecklistItem` callback, but the page uses `TarefaList`. No
  handler forces a logout on a 401/403 reply.
- The status toggle is modelled as the page defines it
  (`handleToggleStatus`). The list the page renders never calls it:
  `TarefaList` takes only `tarefas`, `onEdit` and `onDelete`
  (`TarefaList.js` line 3) and ignores the `onToggleStatus` the page passes.
  So in the program as written no user action raises `ToggleRequested`.
- The API module (`ApiService.js` lines 24-29) exports only
  `getAllTarefas`, `createTarefa`, `updateTarefa` and `deleteTarefa`. Two
  consequences follow in the program as written:
  - A recurring save (`TarefasPage.js` line 58) throws a `TypeError` before
    `.then`/`.catch` are attached. It sends no request, sets no error and
    leaves the modal open.
  - `ApiService.register` (`RegisterPage.js` line 23) throws inside the
    `try`. The error has no `response`, so every long-enough password ends
    in the "cannot connect" message. Success, the `/login` navigation, a
    refusal with a status, and `Register.OverlappingSubmitsShowBoth` never
    happen.

  The model treats both calls as requests whose replies arrive as events,
  as if the service defined them (`Page.SaveRecurring`, `Register.OnReply`).
- The sort works on a copy (`[...tarefas]`). In the model the projection is
  a pure function of the page state, so deriving the list never changes it.
- Once set, a page error is never cleared (`Page.ErrorIsSticky`), so the
  task list stays hidden after any failure.

## Model

| member | source | states |
|---|---|---|
| Tasks.FlipStatus | src/pages/TarefasPage.js:75 | the toggle never yields `Em Andamento`; the result is `Concluída` exactly when the input was not |
| Tasks.ToPayload | src/pages/TarefasPage.js:76 | the toggle's update body keeps every field of the task and sends each timestamp back as its text, `""` included, `null` as `null` |
| Tasks.FlipTwice | src/pages/TarefasPage.js:75 | flipping twice restores a status iff it is not `Em Andamento`; `Em Andamento` comes back as `Pendente` |
| View.SortGroup | src/pages/TarefasPage.js:106-107 | one completion group is reordered as a permutation with the same members, and any two timed tasks are in ascending start order |
| View.SortTarefas | src/pages/TarefasPage.js:103-108 | the model's sorted list is a permutation of the tasks in which no completed task precedes an open one, and two timed tasks of one group are in start order |
| View.MixedGroupOrderIsNotForced | src/pages/TarefasPage.js:103-108 | with an untimed task between two open timed tasks in reverse start order, every adjacent pair satisfies the comparator's guarantee yet the list is not ordered, so the page's own sort may keep it; the model's sort moves it |
| View.FilterByDay | src/pages/TarefasPage.js:110-118 | no selected day returns the sorted list itself; a selected day gives a subsequence holding exactly the tasks starting on that day, never a task without a start, and keeps the sort guarantees |
| View.ProjectionContents | src/pages/TarefasPage.js:102-119 | the model's `filteredTarefas` is ordered; without a day it holds every task; with a day it holds, with multiplicity, exactly the tasks starting on that day |
| View.MarkDay | src/pages/TarefasPage.js:121-133 | a tile is marked iff the view is `month` and some task starts on that day |
| View.MarkerAgreesWithFilter | src/pages/TarefasPage.js:110-133 | a month tile is marked iff selecting that day would list at least one task |
| Page.Fetch | src/pages/TarefasPage.js:34-36 | loading starts and one list request is issued; tasks, error, selected day, modal and edited task are untouched |
| Page.OnLoadReply | src/pages/TarefasPage.js:36-42 | a delivered list replaces the tasks and keeps the error; a failed load keeps the tasks and sets the load error; loading ends either way; selected day, modal and edited task are kept |
| Page.Save | src/pages/TarefasPage.js:46-49 | exactly one request: an update with the payload's id iff that id is truthy, else a create; the state is unchanged |
| Page.OnSaveReply | src/pages/TarefasPage.js:51-63 | success reloads and closes the modal, keeping the error; failure only sets the error; tasks, selected day and edited task never change |
| Page.SaveRecurring | src/pages/TarefasPage.js:57-58 | one create-recurring request carrying the whole payload; the state is unchanged |
| Page.RequestDelete | src/pages/TarefasPage.js:66-68 | a delete request goes out iff confirmed; the state is unchanged |
| Page.OnDeleteReply | src/pages/TarefasPage.js:68-70 | success reloads, keeping the error; failure only sets the delete error; tasks, selected day, modal and edited task never change |
| Page.ApplyToggle | src/pages/TarefasPage.js:76-78 | length and every id are preserved; tasks with another id are untouched; tasks with the clicked id become the clicked task with its status flipped |
| Page.ToggleStatus | src/pages/TarefasPage.js:74-79 | the toggle is applied locally before the single update request, which carries the flipped task |
| Page.OnToggleReply | src/pages/TarefasPage.js:80-83 | a successful update changes nothing; a failed one sets the status error and reloads, keeping the tasks, selected day, modal and edited task |
| Page.SelectDate | src/pages/TarefasPage.js:93 | the day becomes the selected day and nothing else changes |
| Page.ClearDate | src/pages/TarefasPage.js:94 | the selected day is dropped and nothing else changes |
| Page.OpenModal | src/pages/TarefasPage.js:95-98 | the modal opens with the given task (or none) to edit and nothing else changes |
| Page.CloseModal | src/pages/TarefasPage.js:99 | the modal closes and nothing else changes |
| Page.SelectDateNarrows | src/pages/TarefasPage.js:93-118 | after selecting a day the derived list holds exactly the tasks starting on it, and the tasks are untouched |
| Page.ClearDateRestores | src/pages/TarefasPage.js:93-110 | clearing the day after selecting one leaves no day selected and everything else as it was, and lists every task again |
| Page.ModalOpenClose | src/pages/TarefasPage.js:95-99 | opening and closing the modal issues nothing and leaves the modal closed and the page as it was, apart from the remembered task |
| Page.Message | src/pages/TarefasPage.js:40-81 | every error has a non-empty message |
| Page.MessagesDistinct | src/pages/TarefasPage.js:40-81 | two errors show the same message iff they are the same error |
| Page.ErrorLine | src/pages/TarefasPage.js:175 | an error line is rendered iff an error is set, and it is never empty |
| Page.Shown | src/pages/TarefasPage.js:174-183 | the list is rendered iff not loading and no error; it holds every task, or with a day selected exactly the tasks starting on it (with multiplicity); in the model it is ordered |
| Page.OnlyLoadAndToggleChangeTasks | src/pages/TarefasPage.js:34-99 | the only events that change the tasks are a delivered list and a toggle; saves, deletes and failures do not |
| Page.MountThenLoadShowsAll | src/pages/TarefasPage.js:25-42 | from the initial state, the mount fetch and its delivered reply leave one list request issued and every delivered task shown |
| Page.ErrorIsSticky | src/pages/TarefasPage.js:34-99 | no sequence of events clears an error, so the list is never rendered again |
| Page.ReloadMarksLoading | src/pages/TarefasPage.js:34-36 | every step that requests the list leaves the page loading |
| Page.SaveDispatch | src/pages/TarefasPage.js:46-49 | a save is an update iff the id is truthy and a create iff it is not |
| Page.DeleteNeedsConfirmation | src/pages/TarefasPage.js:66-72 | an unconfirmed delete issues nothing and changes nothing |
| Page.ToggleFailureRollsBack | src/pages/TarefasPage.js:74-84 | toggle, failed update, then reload: the tasks end up as the list delivered by the API, with the status error set and the requests `[update, list]` |
| Page.ToggleTouchesOneTask | src/pages/TarefasPage.js:76-78 | with distinct ids, toggling a listed task replaces just that position with its flipped copy and keeps ids distinct |
| Page.ToggleTwiceRestores | src/pages/TarefasPage.js:74-78 | toggling a task and then its toggled copy restores the list, unless the task was in progress, which comes back pending |
| Form.TimeInput | src/components/TarefaForm.js:25-26 | a stored timestamp shows as exactly the first 16 characters of its text (all of a shorter text), which for text in the Basic Multilingual Plane is exactly 16 UTF-16 units (or all of them); none shows as empty |
| Form.Open | src/components/TarefaForm.js:20-33 | opening clears the weekday selection; a new task gets blank fields; an edited task's name, description and cut times are filled in |
| Form.ToggleDay | src/components/TarefaForm.js:35-39 | an absent day is appended at the end; a present day is removed, the rest keeping their order; other days keep their membership; duplicate-freedom is preserved |
| Form.ToggleDayTwice | src/components/TarefaForm.js:35-39 | two clicks on one day restore the selection as a set, and restore the exact sequence when the day was not selected |
| Form.ChangeTime | src/components/TarefaForm.js:71-80 | the changed field stores `"2025-09-13T" + value` in recurring mode and `value` otherwise; nothing else changes and the recurring mode stays |
| Form.TimeInputShowsTyped | src/components/TarefaForm.js:115-133 | a typed time is what the input then shows iff the form is not recurring or the value has no `'T'` |
| Form.Submit | src/components/TarefaForm.js:41-66 | an empty name is rejected; otherwise exactly one save fires, the recurring one iff days are selected and no task is edited; the payload fields and defaults are as described under "Payloads" below |
| Form.RecurringSubmitSendsTypedTimes | src/components/TarefaForm.js:46-53 | in recurring mode, typed `'T'`-free times reach the single recurring payload unchanged, with status `Pendente` and the whole day selection |
| Form.EditResubmitUnchanged | src/components/TarefaForm.js:20-63 | editing a task with `YYYY-MM-DDTHH:MM:00` timestamps in the Basic Multilingual Plane and saving without changes sends the task's six fields back unchanged |
| TimeText.Split | src/components/TarefaForm.js:51-52 | `split('T')` yields at least one piece, none holding `'T'`, and a single piece iff there is no `'T'` |
| TimeText.JoinSplit | src/components/TarefaForm.js:51-52 | joining the pieces of a split gives the string back |
| TimeText.SplitJoin | src/components/TarefaForm.js:51-52 | splitting a join of `'T'`-free pieces gives the pieces back |
| TimeText.AfterT | src/components/TarefaForm.js:51-52 | `split('T')[1]` is undefined iff there is no `'T'`; otherwise it is exactly the text after the first `'T'` up to the next `'T'` or the end |
| TimeText.SecondPiece | src/components/TarefaForm.js:51-52 | the second piece of a split starts right after the first separator and ends at the next one or the end |
| TimeText.RecurringTimeRoundTrip | src/components/TarefaForm.js:72-76 | the part after `'T'` of `"2025-09-13T" + v` is `v` iff `v` has no `'T'` |
| TimeText.Cut16 | src/components/TarefaForm.js:25-26 | `substring(0, 16)` keeps the first 16 characters or all of a shorter text; on text in the Basic Multilingual Plane that is the first 16 UTF-16 units, or all of them |
| TimeText.CutThenSecondsRoundTrip | src/components/TarefaForm.js:25-61 | cutting to 16 characters and appending `":00"` restores a timestamp iff it is 19 characters long and ends in `":00"` |
| Utf16.Utf16Length | src/pages/RegisterPage.js:17 | `password.length` counts UTF-16 units: a single character counts 1, or 2 when outside the Basic Multilingual Plane; the total is between one and two units per character, exactly one per character on BMP text |
| Utf16.Utf16Append | src/pages/RegisterPage.js:17 | the length of a concatenation is the sum of the lengths, so every string counts the sum of its characters' units |
| Register.MixedPairIsShort | src/pages/RegisterPage.js:17 | one BMP character and one astral character count 3 units and fail the 4-unit minimum |
| Register.TwoAstralCharactersPass | src/pages/RegisterPage.js:17 | two characters outside the Basic Multilingual Plane already satisfy the 4-character minimum |
| Register.ErrorText | src/pages/RegisterPage.js:18-39 | every error message is non-empty |
| Register.TextsDistinct | src/pages/RegisterPage.js:18-39 | the error messages are pairwise different and none is the success message |
| Register.Rendered | src/pages/RegisterPage.js:69-70 | the page shows one line per set message, error first, none empty |
| Register.Submit | src/pages/RegisterPage.js:12-20 | both messages are cleared; a password shorter than 4 sets the length error and sends nothing; otherwise the register request goes out |
| Register.Classify | src/pages/RegisterPage.js:30-40 | status 400 gives "username exists", 403 gives "permission", any other status "unexpected", no response "cannot connect" |
| Register.OnReply | src/pages/RegisterPage.js:22-40 | success sets the success message and schedules navigation to `/login` after 2000 ms; failure sets the classified error |
| Register.ExactlyOneMessage | src/pages/RegisterPage.js:12-42 | after a submit and its own reply exactly one message is set and rendered; navigation is scheduled iff the password is long enough and registration succeeded; a short password sends nothing |
| Register.OverlappingSubmitsShowBoth | src/pages/RegisterPage.js:14-40 | two submits whose replies arrive late can leave both an error and the success message set |

Payloads (`Form.Submit`):
- A recurring payload has status `Pendente` and the whole day selection.
  Each time is the part after `'T'` of the stored value. An empty stored
  value falls back to `09:00` / `10:00`.
- A single payload takes the edited task's id and status, or `null` and
  `Pendente` for a new task. Each time is the input with `":00"` appended,
  or `null` when empty.

## Left out

- View.SortTarefas: the model fixes one ordering: open tasks before
  completed ones, and in each group timed tasks by stable start order,
  then untimed tasks in list order. The source calls
  `Array.prototype.sort`. Its comparator is inconsistent when a group mixes
  timed and untimed tasks (line 107 returns 0), so the real order there is
  engine-defined. The page itself can then list two timed tasks of one
  group out of start order (`View.MixedGroupOrderIsNotForced`). So
  "ordered" in `View.ProjectionContents`, `View.FilterByDay` and
  `Page.Shown` is a property of the model's order, not of every order the
  page may show.
- View.FilterByDay: the day is compared on the abstract `(year, month, day)`
  of each `Instant`. Local-time conversion is not modelled.
- Form.Submit: the browser's `required` attributes on the name and time
  inputs can block a submit before `handleSubmit` runs. The model follows
  the handler, which is why the empty-name alert and the default times are
  reachable in it.
- Form.TimeInput: the cut counts characters, while `substring(0, 16)`
  counts UTF-16 units. The two agree on text in the Basic Multilingual
  Plane, which ISO timestamps from the API are. On text with astral
  characters the source could split a surrogate pair, which a Dafny
  `char` cannot hold, so that case is not modelled.
- Form.ChangeTime: `datePart` and the non-recurring `timePart` in
  `handleTimeChange` are computed but never used, so they are not modelled.
- Form.Open: the name and description fields are assumed to be strings.
  A `null` description from the API is not distinguished from `""`. The
  form's effect is keyed on `tarefaToEdit` (`TarefaForm.js` line 33), so
  it runs when the form mounts or that prop changes, not on every opening.
  `Modal` is not part of this model. The model assumes each opening mounts
  the form afresh. Otherwise, reopening with the same `tarefaToEdit` (for
  example "+ Adicionar Tarefa" twice, with `null`) keeps the previous
  fields and selected days.
- Form.EditResubmitUnchanged: a task is modelled by the six fields the
  form writes (`id`, `nome`, `descricao`, `status`, `horarioInicio`,
  `horarioFim`). Any other field the API sends, such as `horarioData` or
  `checklistItems`, is kept by the toggle's spread (`TarefasPage.js`
  line 76) and dropped by a form save, whose payload has exactly these six
  keys.
- Register.Submit: the username is not checked by the handler and is passed
  through as is.
- Theme switching, the logout button, the `Modal`/`Calendar` widgets and
  all JSX rendering are presentation.
- The HTTP layer (`src/services/ApiService.js`) only concatenates URLs.
  It also does not define `createRecurringTarefa` or `register`, which the
  pages call (see the facts above). It is modelled as the `Call`/`Effect`
  requests plus reply events.
- `src/components/TaskList.js` and `src/components/TarefaList.js` are
  presentational, with locale-dependent formatting.
- `src/context/AuthContext.js`, `src/pages/LoginPage.js` and `src/App.js`
  are session storage, a login wrapper and routing.
- Promise interleaving is not modelled. Replies are events in any order
  the caller chooses. The model does not track which request a reply
  answers.
- Logging (`console.error`) is left out.
