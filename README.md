# Task and user management front end: a Dafny model

This project models the sequential logic inside the React front end of a task and user
management application. A kanban board shows tasks in three status columns, a panel totals the
hours assigned to each user, a table lists users, and forms create and edit both kinds of record.
The pages keep the task list and the user list in memory and update them once the REST backend
has answered. The model covers:

- the two page controllers (`TaskPage.Page`, `UserPage.Page`): classes whose fields are the
  pages' React state. Each handler is one atomic method. The handlers that await the backend
  (loading, saving, deleting) take its reply as an input (`Remote.Reply`: no response, or a
  status plus a JSON body that may fail to decode) and return the notification they show; the
  save and delete handlers also return the request they sent. The handlers that only open or
  close a form or a confirmation take no reply. Each contract gives the complete new state in
  terms of pure list functions (`WithoutTask`, `Edited`, `Appended` and their user
  counterparts).
- the status check each handler applies. Load, add and edit fail only on 400 or 404, when no
  response arrives, or (for load and add) when the body is not JSON. Delete fails on anything outside 200-299. The tasks page loads its users
  with the stricter check. `Remote.StatusAsymmetry` states the difference.
- the board's partition of the task list into status columns (`TaskBoard`).
- the hours panel: per-user, per-status totals and the list of distinct user names
  (`HoursSummary`).
- the two forms' field defaulting, reset and emitted draft (`TaskForm`, `UserForm`).
- the user table's delete-confirmation state machine (`UserTable.DeleteDialog`).

Record ids are strings that the model only compares for equality (`Remote.Id`). Hours are natural numbers.

Observations on the source, modelled as written:

- The task form reads `task?.estimatedTime` and `task?.assignedUser` and emits those names
  (src/components/tasks/taskForm.tsx:19-20, 24). `ITask` has `time` and `user` instead
  (src/components/tasks/taskBoard.tsx:10-11). The model gives the form its own view of the
  record (`TaskForm.TaskView`). `TaskForm.EditFormOfTask` shows that a record carrying only the `ITask`
  fields (as loaded from the backend) opens in the form with 0 hours and no assigned user; a
  task added or edited on the page also carries the form's field names and reopens with them. The page's save handler is modelled with its declared
  payload type, `Omit<ITask, 'id'>` (`TaskBoard.TaskDraft`).
- `IUser.id` is declared a number (src/components/users/userTable.tsx:6). The users page's delete
  handler takes it as a string (src/pages/usuarios/index.tsx:54). The same value flows from the
  row to the handler, so the model uses one id type for both.
- The confirm callback of the tasks page uses `taskToDelete!` (src/pages/tarefas/index.tsx:184).
  The page invariant `TaskPage.Page.Valid` (an open confirmation always has a task to delete)
  shows that the assertion holds. The callback does not clear `taskToDelete`.
- The code has no due-date, e-mail or password validation, and it talks only to the REST backend.
  The model follows the code, so none of these appear in it.

## Model

| member | source | states |
|---|---|---|
| Seqs.Filter | src/components/tasks/taskBoard.tsx:26-28 | `filter` keeps exactly the elements that pass the test, and only they pass it |
| Seqs.FilterMultiset | src/components/tasks/taskBoard.tsx:26-28 | a filter keeps each passing element exactly as often as it occurs and drops the rest |
| Seqs.FilterSubsequence | src/components/tasks/taskBoard.tsx:26-28 | a filter keeps the original relative order |
| Seqs.FilterConcat | src/components/tasks/userHoursSummary.tsx:13 | filtering a concatenation is the concatenation of the filtered parts |
| Seqs.FilterKeepsAll | src/pages/tarefas/index.tsx:83 | a filter that every element passes returns its input |
| Seqs.IndexOf | src/components/tasks/userHoursSummary.tsx:30 | `indexOf` gives the first index holding the value, or -1 exactly when the value is absent |
| Seqs.FirstOccurrencesFrom | src/components/tasks/userHoursSummary.tsx:30 | the `indexOf(value) === index` filter keeps only values whose first occurrence is at or after the start index |
| Seqs.FirstOccurrencesFromMembers | src/components/tasks/userHoursSummary.tsx:30 | it keeps a value exactly when the value's first occurrence is at or after the start index |
| Seqs.FirstOccurrencesFromOrdered | src/components/tasks/userHoursSummary.tsx:30 | the kept values appear in the order of their first occurrences |
| Seqs.FirstOccurrences | src/components/tasks/userHoursSummary.tsx:30 | the deduplication gives every value of the input exactly once, in order of first occurrence |
| Remote.Accepted | src/pages/tarefas/index.tsx:31-34 | load, add and edit go on whenever a response arrived whose status is neither 400 nor 404 |
| Remote.AcceptedBody | src/pages/tarefas/index.tsx:31-36 | a load or add goes on with a body exactly when a response arrived, its status is neither 400 nor 404, and its JSON decodes; the body is then the decoded one |
| Remote.Succeeded | src/pages/tarefas/index.tsx:79-81 | a delete goes on exactly on a 2xx response (`response.ok`), and every such reply also passes the 400/404 check |
| Remote.StatusAsymmetry | src/pages/tarefas/index.tsx:108-111 | a reply that delete accepts (2xx, line 79) is accepted by add and edit too; any other non-2xx status except 400/404 is accepted by add and edit and refused by delete |
| TaskBoard.WithId | src/pages/tarefas/index.tsx:143 | `{ id, ...task }` has the given id and exactly the draft's fields |
| TaskBoard.WithIdDraftOf | src/components/tasks/taskBoard.tsx:5-15 | a task is its id plus its other fields, so splitting and rebuilding gives it back |
| TaskBoard.ColumnOrderCoversStatuses | src/components/tasks/taskBoard.tsx:25-29 | the column keys list each of the three statuses exactly once |
| TaskBoard.Column | src/components/tasks/taskBoard.tsx:26-28 | a column holds exactly the tasks of the list with that status, in list order |
| TaskBoard.Columns | src/components/tasks/taskBoard.tsx:25-34 | the columns come in the fixed order Backlog, Em Desenvolvimento, Finalizada, and each holds exactly the board filter for its own status |
| TaskBoard.EachTaskInExactlyOneColumn | src/components/tasks/taskBoard.tsx:25-29 | every task of the list is in the column of its own status and in no other column |
| TaskBoard.ColumnsPartition | src/components/tasks/taskBoard.tsx:25-29 | the three columns together hold the list's tasks with their multiplicities, and their sizes add up to the list length |
| HoursSummary.SumTime | src/components/tasks/userHoursSummary.tsx:14 | the fold of hours from 0 is 0 on an empty list and at least the hours of each task in it |
| HoursSummary.TotalHours | src/components/tasks/userHoursSummary.tsx:12-15 | `calculateTotalHours(u, s)` is at least the hours of every task of user u in status s |
| HoursSummary.SingleTaskHours | src/components/tasks/userHoursSummary.tsx:13-14 | over a one-task list, each total is that task's hours when it matches the user (and the status) and 0 otherwise |
| HoursSummary.SumTimeConcat | src/components/tasks/userHoursSummary.tsx:14 | the hour fold starting from 0 is additive over concatenation |
| HoursSummary.SumTimeZero | src/components/tasks/userHoursSummary.tsx:14 | the fold is 0 exactly when every task in it has 0 hours |
| HoursSummary.TotalHoursZero | src/components/tasks/userHoursSummary.tsx:12-15 | `calculateTotalHours(u, s)` is 0 exactly when every task of user u in status s has 0 hours, and so it is 0 when no task matches |
| HoursSummary.TotalHoursConcat | src/components/tasks/userHoursSummary.tsx:12-15 | the total over a concatenation of task lists is the sum of the two totals |
| HoursSummary.UserHoursConcat | src/components/tasks/userHoursSummary.tsx:13-14 | a user's total over all statuses is additive over concatenation |
| HoursSummary.StatusTotalsSum | src/components/tasks/userHoursSummary.tsx:37-43 | the three per-status totals shown for a user add up to all of that user's hours |
| HoursSummary.UserNames | src/components/tasks/userHoursSummary.tsx:30 | `tasks.map(task => task.user)` gives each task's user, position by position |
| HoursSummary.DistinctUsers | src/components/tasks/userHoursSummary.tsx:30 | the selector lists every user name occurring in the tasks, each once, in order of first occurrence, and nothing else |
| TaskForm.OptionListsAreExact | src/components/tasks/taskForm.tsx:12-13 | the selectors offer exactly Alta, Média, Baixa and Backlog, Em Desenvolvimento, Finalizada, each once, the statuses in column order |
| TaskForm.Initial | src/components/tasks/taskForm.tsx:16-21 | with no task every field takes its default ('', '', Média, 0, '', Backlog); with a task each field takes the task's value, and a missing priority or status falls back to Média or Backlog |
| TaskForm.InitialIdempotent | src/components/tasks/taskForm.tsx:27-34 | re-reading the values the form shows gives the same values again |
| TaskForm.EditFormOfTask | src/components/tasks/taskForm.tsx:16-21 | an `ITask` opens to its name, description, priority and status, with 0 hours and no assigned user |
| TaskForm.Form.constructor | src/components/tasks/taskForm.tsx:16-21 | the initial field values follow the defaulting rule |
| TaskForm.Form.Reset | src/components/tasks/taskForm.tsx:27-34 | a change of the `task` prop resets the fields by the same rule as initialisation |
| TaskForm.Form.HandleSave | src/components/tasks/taskForm.tsx:23-25 | save emits exactly the six current field values and no id |
| TaskForm.Form.SetName | src/components/tasks/taskForm.tsx:41 | typing a name changes that field only |
| TaskForm.Form.SetDescription | src/components/tasks/taskForm.tsx:47 | typing a description changes that field only |
| TaskForm.Form.SetPriority | src/components/tasks/taskForm.tsx:54 | choosing a priority changes that field only |
| TaskForm.Form.SetEstimatedTime | src/components/tasks/taskForm.tsx:67 | entering hours changes that field only |
| TaskForm.Form.SetAssignedUser | src/components/tasks/taskForm.tsx:74 | choosing a user changes that field only |
| TaskForm.Form.SetStatus | src/components/tasks/taskForm.tsx:87 | choosing a status changes that field only |
| UserTable.WithId | src/pages/usuarios/index.tsx:123 | `{ id, ...user }` has the given id and exactly the draft's fields |
| UserTable.DeleteDialog.constructor | src/components/users/userTable.tsx:27-28 | the dialog starts closed with no user selected |
| UserTable.DeleteDialog.HandleOpen | src/components/users/userTable.tsx:30-33 | opening selects the given id and opens the dialog; open holds exactly when an id is selected |
| UserTable.DeleteDialog.HandleClose | src/components/users/userTable.tsx:35-38 | closing (also Cancel, line 89) closes the dialog, clears the selection and deletes nothing |
| UserTable.DeleteDialog.HandleConfirmDelete | src/components/users/userTable.tsx:40-45 | confirming hands `onDelete` at most one id, only when one is selected and only that id, then returns to closed with no selection |
| UserForm.TeamOptionsDistinct | src/components/users/userForm.tsx:5-14 | the team selector offers eight distinct names |
| UserForm.ResetFields | src/components/users/userForm.tsx:28-40 | with a user the fields copy its email, name, role and team; without one all four are empty |
| UserForm.UnchangedEditIsIdentity | src/components/users/userForm.tsx:29-33 | submitting the copied fields unchanged and merging them into the user, as the page does, gives back the same user |
| UserForm.Complete | src/components/users/userForm.tsx:50-78 | the browser lets the form submit only when all four `required` fields are non-empty, so never from the freshly cleared form |
| UserForm.Form.constructor | src/components/users/userForm.tsx:23-26 | all four fields start empty |
| UserForm.Form.Reset | src/components/users/userForm.tsx:28-40 | the effect on the `user` prop sets the fields by that rule |
| UserForm.Form.HandleSubmit | src/components/users/userForm.tsx:42-86 | submit emits exactly `{ email, name, role, team }` and no id, and emits nothing while any of the four `required` fields is empty |
| UserForm.Form.SetEmail | src/components/users/userForm.tsx:54 | typing an email changes that field only |
| UserForm.Form.SetName | src/components/users/userForm.tsx:61 | typing a name changes that field only |
| UserForm.Form.SetRole | src/components/users/userForm.tsx:68 | typing a role changes that field only |
| UserForm.Form.SetTeam | src/components/users/userForm.tsx:76 | choosing a team changes that field only |
| TaskPage.WithoutTask | src/pages/tarefas/index.tsx:83 | after a delete, exactly the tasks whose id differs from the deleted id remain, each as often as before, in their original relative order |
| TaskPage.SaveAccepted | src/pages/tarefas/index.tsx:108-141 | an edit goes on exactly when the reply passes the 400/404 check; an add also needs its JSON body to decode |
| TaskPage.WithoutAbsentId | src/pages/tarefas/index.tsx:83 | deleting an id that no task has leaves the list as it is |
| TaskPage.Edited | src/pages/tarefas/index.tsx:113 | an edit keeps the list's length and ids; records with the selected id take the draft's fields; all others are untouched |
| TaskPage.Appended | src/pages/tarefas/index.tsx:143 | an add appends exactly one record at the end, with the returned id and the draft's fields |
| TaskPage.AddThenDeleteRestores | src/pages/tarefas/index.tsx:141-143 | deleting a task just added under a fresh id restores the list from before the add |
| TaskPage.AddedTaskInItsColumn | src/pages/tarefas/index.tsx:143 | an added task appears in the board column of its status and in no other |
| TaskPage.UnchangedEditIsIdentity | src/pages/tarefas/index.tsx:113 | saving the selected task's own fields leaves the list unchanged |
| TaskPage.Page.constructor | src/pages/tarefas/index.tsx:18-23 | the page starts with empty lists, no selection and both dialogs closed |
| TaskPage.Page.FetchTasks | src/pages/tarefas/index.tsx:27-41 | loading replaces the list with the fetched one, except on no reply, 400/404 or an undecodable body, which keep the prior list and report an error |
| TaskPage.Page.FetchUsers | src/pages/tarefas/index.tsx:43-54 | the user list is replaced only on a 2xx reply with a decodable body; otherwise it is kept and an error is reported |
| TaskPage.Page.HandleAdd | src/pages/tarefas/index.tsx:60-63 | clears the selection, so the next save adds, and opens the form |
| TaskPage.Page.HandleEdit | src/pages/tarefas/index.tsx:65-68 | selects the task, so the next save edits it, and opens the form |
| TaskPage.Page.HandleDelete | src/pages/tarefas/index.tsx:70-88 | a 2xx reply removes the tasks with that id; any other reply leaves the list unchanged and reports an error |
| TaskPage.Page.HandleSave | src/pages/tarefas/index.tsx:90-151 | sends `{ id, ...task }` when editing and the id-less draft when adding; only no reply, 400/404 or (for an add) an undecodable body aborts, keeping the list and the form open; otherwise it applies the edit or the append and closes the form |
| TaskPage.Page.HandleDeleteConfirmation | src/pages/tarefas/index.tsx:153-156 | remembers the task to delete and opens the confirmation |
| TaskPage.Page.ConfirmDelete | src/pages/tarefas/index.tsx:183-186 | deletes the remembered task under the delete rule, shows the delete notification, and closes the confirmation whatever the reply |
| TaskPage.Page.CloseConfirm | src/pages/tarefas/index.tsx:182 | closing the confirmation deletes nothing |
| TaskPage.Page.CloseForm | src/pages/tarefas/index.tsx:174 | closing or cancelling the form closes it and changes nothing else |
| TaskPage.DeleteThroughConfirmation | src/pages/tarefas/index.tsx:183-186 | asking to delete a task and confirming with a 2xx reply removes exactly the tasks with that id and leaves the confirmation closed and the form as it was |
| TaskPage.AddThenConfirmDelete | src/pages/tarefas/index.tsx:183-186 | adding a task under a fresh id, then asking for and confirming its deletion, leaves the list as it started |
| UserPage.WithoutUser | src/pages/usuarios/index.tsx:67 | after a delete, exactly the users whose id differs from the deleted id remain, each as often as before, in their original relative order |
| UserPage.SaveAccepted | src/pages/usuarios/index.tsx:92-121 | an edit goes on exactly when the reply passes the 400/404 check; an add also needs its JSON body to decode |
| UserPage.WithoutAbsentId | src/pages/usuarios/index.tsx:67 | deleting an id that no user has leaves the list as it is |
| UserPage.Edited | src/pages/usuarios/index.tsx:97 | an edit keeps the list's length and ids; records with the selected id take the draft's fields; all others are untouched |
| UserPage.Appended | src/pages/usuarios/index.tsx:123 | an add appends exactly one record at the end, with the returned id and the draft's fields |
| UserPage.AddThenDeleteRestores | src/pages/usuarios/index.tsx:121-123 | deleting a user just added under a fresh id restores the list from before the add |
| UserPage.UnchangedEditIsIdentity | src/pages/usuarios/index.tsx:97 | saving the selected user's own fields leaves the list unchanged |
| UserPage.Page.constructor | src/pages/usuarios/index.tsx:20-22 | the page starts with an empty list, no selection and the dialog closed |
| UserPage.Page.FetchUsers | src/pages/usuarios/index.tsx:25-39 | loading replaces the list, except on no reply, 400/404 or an undecodable body, which keep the prior list and report an error |
| UserPage.Page.HandleAdd | src/pages/usuarios/index.tsx:44-47 | clears the selection, so the next save adds, and opens the dialog |
| UserPage.Page.HandleEdit | src/pages/usuarios/index.tsx:49-52 | selects the user, so the next save edits it, and opens the dialog |
| UserPage.Page.HandleDelete | src/pages/usuarios/index.tsx:54-72 | a 2xx reply removes the users with that id; any other reply leaves the list unchanged and reports an error |
| UserPage.Page.HandleSave | src/pages/usuarios/index.tsx:74-131 | sends `{ id, ...user }` when editing and exactly name, email, role and team when adding; only no reply, 400/404 or (for an add) an undecodable body aborts, keeping the list and the dialog open; otherwise it applies the edit or the append and closes the dialog |
| UserPage.Page.HandleCancel | src/pages/usuarios/index.tsx:133-135 | cancel closes the dialog without touching the list |
| UserPage.ConfirmUserDeletion | src/pages/usuarios/index.tsx:151 | with the table's confirm wired to the page's delete, a user is removed only when the dialog was open on it and the reply is 2xx |

## Left out

- Network transport: `fetch`, URLs built from `process.env.BD_API`, headers and JSON encoding. Only the reply (status and decoded body) enters the model, as a parameter.
- A reply body that decodes but has the wrong shape (for example a 500 body that is not a task list) is not modelled. The model's JSON body already has the expected type.
- The text of error notifications (`error.message`, the response text). Only whether an error is reported is modelled. Success messages are modelled in full.
- Toast rendering, dialogs, JSX layout, styling, `confirmationDialog.tsx` and `loading.tsx`: presentation only.
- Authentication (`withAuth.tsx`, `src/pages/index.tsx`, the sign-out buttons) and the login and registration pages: thin wrappers over an identity provider and static markup.
- Overlapping asynchronous saves and handlers working on a stale captured list: each handler is one atomic step.
- Fractional hours (`Number(e.target.value)` at src/components/tasks/taskForm.tsx:67): hours are natural numbers.
- TaskPage.Page.HandleSave: takes a complete `TaskDraft`, but its one caller, the task form (src/pages/tarefas/index.tsx:177, src/components/tasks/taskForm.tsx:24), passes `{ name, description, priority, estimatedTime, assignedUser, status }`. In the source an add therefore sends no `time`, `user`, `finalDate` or `fcmtoken` (`JSON.stringify` drops the undefined fields, src/pages/tarefas/index.tsx:122-131), and the appended task has no `time` or `user` (:143). The per-user filter in src/components/tasks/userHoursSummary.tsx:13 therefore never matches it, so its missing `time` never reaches the sum at src/components/tasks/userHoursSummary.tsx:14, and the user selector's list (src/components/tasks/userHoursSummary.tsx:30) gains an `undefined` entry. An edit (src/pages/tarefas/index.tsx:113) keeps the selected task's `time`, `user`, `finalDate` and `fcmtoken`. Both an added and an edited task also pick up the form's `estimatedTime` and `assignedUser` fields (src/pages/tarefas/index.tsx:113, 143), so they reopen in the form with those values. `Appended`, `Edited` and `AddTask` take the draft's fields instead; the model does not join the form's field names to the page's.
- The task form's user selector options (`users.map(...)` at src/components/tasks/taskForm.tsx:77-81) and the "no tasks yet" / "no users yet" placeholders: presentation only.
