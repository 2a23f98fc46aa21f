# Task manager: the task-list state machine

A Dafny model of the state logic inside the task-manager React component. Two
near-identical versions of it exist, `src/App1.jsx` and `src/App.jsx`. The
component holds four pieces of state:

- `tasks`: an ordered list of `{id, text}` records;
- `input`: the pending text of the input box;
- `isEditing`: whether a submit updates an existing task instead of adding one;
- `currentEditId`: the id of the task being edited, or `null`.

Three handlers change this state:

- `addOrUpdateTask` ignores an input that is blank after `trim()`. Otherwise it
  appends a new task, or rewrites the text of the tasks with the edit target's
  id and leaves edit mode. Then it clears the input.
- `deleteTask(id)` filters out the tasks with that id. When that id is the edit
  target, it also cancels editing and clears the input.
- `editTask(task)` loads the task's text into the input and targets its id.

The later version, `src/App.jsx`, adds a `message` field. A successful submit
sets it to "Task added!" or "Task updated!". An effect clears it three seconds
later.

Layout, one module per file:

- `js_string.dfy` (`JsString`): JavaScript's `String.prototype.trim` over the
  ECMAScript white-space and line-terminator characters, and the blank test
  `input.trim() === ""`.
- `task_list.dfy` (`TaskList`): tasks, and the two pure list transitions.
  `WithText` is the `map` that rewrites texts. `Without` is the `filter` by id.
- `editor.dfy` (`Editor`): the state machine both versions share, as pure
  transitions on an `EditorState` value. `Submit` also reports an outcome:
  `Ignored`, `Added` or `Updated`.
- `app1.dfy` (`App1`): the first version as a class. The class has the four
  state fields, and each handler is a method that updates them in place. Each
  method's `ensures` ties the new state to the `Editor` transition of the old
  state.
- `app.dfy` (`App`): the later version. An `AppState` value adds the message,
  with pure transitions `Submit`, `Delete`, `Edit`, `ChangeInput` and `Expire`.
  Their properties are proved as the lemmas listed below. A class holds the five
  fields, with one method per handler and an `ExpireMessage` method for the
  timer firing.

Each handler is one atomic update from the state before it to the state after
it. The source reads the list through `prev` in the update branch and through
`tasks` in the append branch; within one atomic handler both name the same
list. The new task's id comes from the clock (`Date.now()`), so
it is a method parameter. Ids are never assumed unique. With duplicate ids, an
update rewrites every matching task and a delete removes every matching task.
The lemmas that do need unique ids say so in their `requires`.

## Model

| member | source | states |
|---|---|---|
| JsString.TrimStart | src/App1.jsx:11 | the result is a suffix of the input, every dropped character is white space, and the result does not start with white space |
| JsString.TrimEnd | src/App1.jsx:11 | the result is a prefix of the input, every dropped character is white space, and the result does not end with white space |
| JsString.Trim | src/App1.jsx:11 | `trim()` returns a contiguous slice of the input, with only white space outside it and no white space at either end |
| JsString.BlankIffAllWhiteSpace | src/App1.jsx:11 | the guard `input.trim() === ""` holds exactly when every character of the input is white space |
| TaskList.WithText | src/App1.jsx:14-18 | the rewrite keeps the length and every id; tasks with the target id get the new text, and all other tasks keep theirs |
| TaskList.Without | src/App1.jsx:30 | the filter drops every task with the id, keeps every other task as often as it occurred, and keeps the survivors in their old order |
| TaskList.WithTextAbsent | src/App1.jsx:15-17 | rewriting an id that no task has leaves the list unchanged |
| TaskList.WithTextKeepsIds | src/App1.jsx:15-17 | an id is present after the rewrite exactly when it was present before |
| TaskList.WithTextTwice | src/App1.jsx:15-17 | a second rewrite of the same id overrides the first |
| TaskList.WithTextOwnText | src/App1.jsx:15-17 | with unique ids, writing a listed task's own text back into it leaves the list unchanged |
| TaskList.WithoutKeepsOthers | src/App1.jsx:30 | a task whose id differs from the removed id is still in the list |
| TaskList.WithoutRemovesId | src/App1.jsx:30 | no task with the removed id is left |
| TaskList.WithoutAbsent | src/App1.jsx:30 | filtering out an absent id leaves the list unchanged |
| TaskList.WithoutIdempotent | src/App1.jsx:30 | filtering twice by one id is the same as filtering once |
| TaskList.WithoutAppend | src/App1.jsx:30 | the filter splits over a concatenation |
| Editor.Submit | src/App1.jsx:10-27 | a submit is ignored exactly when the input is blank, and an ignored submit changes nothing; it adds exactly when the input is not blank and no edit is in progress; every successful submit clears the input and leaves edit mode |
| Editor.Delete | src/App1.jsx:29-37 | deleting the edit target ends editing, clears the target and clears the input; deleting any other id leaves `isEditing`, `currentEditId` and `input` unchanged |
| Editor.Edit | src/App1.jsx:39-43 | opening a task for editing sets the input to the task's text, enters edit mode with its id as target, and leaves the list unchanged |
| Editor.ChangeInput | src/App1.jsx:52 | typing replaces the input and leaves the list and the edit session unchanged |
| Editor.SubmitAppends | src/App1.jsx:21-24 | a non-blank submit while not editing appends exactly one task `{newId, input}` after the unchanged old list, and leaves the edit target alone |
| Editor.SubmitUpdates | src/App1.jsx:13-18 | a non-blank submit while editing keeps the length and the ids, gives the input as text to the tasks with the target id, and keeps every other task; if no task has the target id, the list is unchanged |
| Editor.SubmitUpdateReachesTarget | src/App1.jsx:13-18 | when the edit target is present in the list, some task ends up as `{target, input}` |
| Editor.SubmitStoresRawInput | src/App1.jsx:11-23 | the stored text is the raw input " Buy milk ", even though its trimmed form is "Buy milk" |
| Editor.SubmitSuccessLeavesEditMode | src/App1.jsx:19-26 | given the edit-session invariant, every successful submit ends with an empty input, `isEditing == false` and `currentEditId == null` |
| Editor.DeleteFilters | src/App1.jsx:30 | after a delete, no task has the id; a task is kept exactly when it was there and has another id, as often as before, in its old order |
| Editor.DeleteAbsent | src/App1.jsx:29-37 | when the edit target is a present task, deleting an absent id changes nothing |
| Editor.DeleteIdempotent | src/App1.jsx:29-37 | deleting the same id twice gives the same state as deleting it once |
| Editor.EditInvariantPreserved | src/App1.jsx:10-43 | every handler keeps `isEditing` true exactly when `currentEditId` is not null |
| Editor.SubmitKeepsTextsNotBlank | src/App1.jsx:10-27 | every text a submit writes has passed the blank guard, so no stored text becomes blank |
| Editor.DeleteKeepsTextsNotBlank | src/App1.jsx:29-37 | a delete only drops tasks, so no stored text becomes blank |
| Editor.OtherHandlersKeepTextsNotBlank | src/App1.jsx:5-52 | the initial list has no blank text, and editing and typing leave the list unchanged, so no stored text becomes blank |
| Editor.SubmitKeepsTargetPresent | src/App1.jsx:10-27 | after a submit, the edit target, if any, is still the id of a task in the list |
| Editor.DeleteKeepsTargetPresent | src/App1.jsx:29-37 | after a delete, the edit target, if any, is still the id of a task in the list |
| Editor.EditKeepsTargetPresent | src/App1.jsx:65-70 | opening a listed task for editing (as its Edit button does) targets a present id, and typing does not disturb the target |
| Editor.EditThenSubmitUnchanged | src/App1.jsx:10-43 | with unique ids, editing a task and submitting its text unchanged gives back the same list and ends editing |
| Editor.EditScenario | src/App1.jsx:10-43 | submitting "Buy milk", editing that task and submitting "Buy oat milk" leaves one task with the new text and the same id, and ends editing |
| Editor.DeleteScenario | src/App1.jsx:21-30 | adding "A" then "B" and then deleting "A" leaves exactly `[B]` |
| Editor.NotBlank | src/App1.jsx:11 | an input whose first character is not white space passes the blank guard |
| App1.Component.constructor | src/App1.jsx:5-8 | the component starts with no tasks, an empty input, and no edit in progress |
| App1.Component.SetInput | src/App1.jsx:52 | the input change handler's new state is `ChangeInput` of the old state |
| App1.Component.AddOrUpdateTask | src/App1.jsx:10-27 | the new state is `Submit` of the old state, the edit invariant and the non-blank texts are kept, and a non-blank submit leaves an empty input and no edit in progress |
| App1.Component.DeleteTask | src/App1.jsx:29-37 | the new state is `Delete` of the old state, and the edit invariant and the non-blank texts are kept |
| App1.Component.EditTask | src/App1.jsx:39-43 | the new state is `Edit` of the old state, and the edit invariant is kept |
| App.SharesEditorTransitions | src/App.jsx:11-45 | submit, delete, edit and typing act on the list, the input and the edit session exactly as in the first version, so every `Editor` lemma holds of the later version too |
| App.SubmitBlankIsNoop | src/App.jsx:12 | a blank submit changes nothing, the message included |
| App.SubmitReports | src/App.jsx:11-30 | a non-blank submit clears the input and leaves edit mode. Not editing, it appends `{newId, input}` and shows "Task added!". Editing, it keeps the length and ids, gives the input as text to the tasks with the target id, keeps every other task, leaves the list unchanged when the target is absent, and shows "Task updated!". Either way an expiry is pending |
| App.OtherHandlersKeepMessage | src/App.jsx:32-45 | delete, edit and typing never change the message, and edit leaves the list unchanged. Deleting the edit target cancels editing and clears the input; deleting another id leaves the session and the input unchanged |
| App.ExpireClearsOnlyMessage | src/App.jsx:47-53 | the expiry event clears the message and nothing else, after which no expiry is pending |
| App.EditInvariantPreserved | src/App.jsx:11-45 | every handler of the later version, and the expiry, keeps `isEditing` true exactly when `currentEditId` is not null |
| App.NoticeScenario | src/App.jsx:23-53 | adding "Buy milk" shows "Task added!"; after expiry the message is empty and the task remains |
| App.Component.constructor | src/App.jsx:5-9 | the component starts with no tasks, an empty input, no edit in progress, and no message |
| App.Component.SetInput | src/App.jsx:65 | the input change handler's new state is `ChangeInput` of the old state |
| App.Component.AddOrUpdateTask | src/App.jsx:11-30 | the new state is `Submit` of the old state, and a non-blank submit leaves an empty input, no edit in progress and a non-empty message |
| App.Component.DeleteTask | src/App.jsx:32-39 | the new state is `Delete` of the old state, so the message is unchanged |
| App.Component.EditTask | src/App.jsx:41-45 | the new state is `Edit` of the old state, so the message is unchanged |
| App.Component.ExpireMessage | src/App.jsx:47-53 | the timer, scheduled only while a message is shown, clears the message and nothing else |

## Left out

- Rendering, the `styles` objects and `App.css` are presentation only. This
  includes the button label switching between "Add Task" and "Update Task".
- `Date.now()` is not modelled. The new id is a method parameter, and id
  uniqueness is not claimed, because the code does not guarantee it.
- `setTimeout`, `clearTimeout` and the effect's cleanup are not modelled. The
  timer firing is the explicit `Expire` / `ExpireMessage` event, allowed only
  while the message is non-empty. The three-second delay is not modelled. Also
  not modelled: the timer restarting when the message changes, and the timer
  not restarting when a submit sets the message it already shows.
- React's batching of state updates and its stale closures are not modelled.
  Each handler is one atomic sequential update.
- Completion toggling, theme switching and an error message for blank input
  appear in neither of the two files, so they are not modelled. Tasks carry
  only `id` and `text`, as both files build them; there is no `completed`
  field.
- JavaScript strings are sequences of UTF-16 code units; here they are
  sequences of Unicode scalar values. `trim()` removes the same characters
  either way, because every character it removes is in the Basic Multilingual
  Plane.
- `App.Submit`, `App.Delete`, `App.Edit`, `App.ChangeInput`, `App.Expire` and
  `App.Notice` carry no contracts of their own. `App.SharesEditorTransitions`
  equates their effect on the list, the input and the edit session with the
  `Editor` transitions, so every `Editor` lemma applies to them. The lemmas
  `App.SubmitReports`, `App.SubmitBlankIsNoop`, `App.OtherHandlersKeepMessage`
  and `App.ExpireClearsOnlyMessage` state what they do to the message.
