# Task store of my-todo-app, modelled in Dafny

The to-do app keeps its tasks in a small store (`store/useStore.js`). The store has two fields:

- `task`: the text-input buffer.
- `tasks`: an ordered list of `{id, name}` records.

It mirrors the list to the device's secure key-value store under the key `"tasks"`. `addTask` and `deleteTask` follow the same pattern:

1. Read the current state.
2. Build a new list without mutating the old one.
3. Write the whole list to the device.
4. Only when that write succeeds, overwrite the in-memory fields.

If the write fails, the fields stay as they were. `clearTasks` instead deletes the key and, only on success, empties the list. `loadTasks` reads the key. `setTask` only sets the buffer and makes no device call.

The project has four modules:

- `JsString` (`js_string.dfy`): `String.prototype.trim` over ECMAScript's whitespace and line-terminator code points, and the fact that `trim()` gives `""` exactly for blank strings. This is the guard of `addTask`.
- `Tasks` (`tasks.dfy`): the `Task` record and `Without`, the `filter` that `deleteTask` uses. `Without`'s contract gives membership and length; lemmas cover relative order (subsequence, distribution over concatenation), the no-match identity and idempotence.
- `Storage` (`secure_store.dfy`): the device store as a class whose map from key to task list is updated in place. `SetItem`, `GetItem` and `DeleteItem` each take a `deviceOk` flag that says whether the device completes the call or rejects it.
- `Store` (`use_store.dfy`): the abstract `State` (buffer, list, device contents), one step function per operation, and the lemmas the store promises. It also holds `TaskStore`, the store itself. Each of its methods is proved to perform exactly its step function and to keep the memory–device agreement `Persisted`; all but `SetTask` do so through calls to the device.

Parameters stand in for the environment:

- `freshId` is the value of `Date.now().toString()`.
- `writeOk`, `readOk` and `deleteOk` say whether the device call resolves or rejects.

Values on the device are stored already decoded, so `JSON.stringify` followed by `JSON.parse` is taken to be the identity.

On these points the model follows the code as written:

- On load, an absent key or a read error leaves `tasks` as it was (store/useStore.js:41-45).
- Tasks have only `id` and `name` (store/useStore.js:16). The store defines no update operation.
- The in-memory state is updated only after a successful write (store/useStore.js:19-20, 31-32), so a failed write never drives memory and device apart: if they agreed before, they still agree (`Store.StepPreservesPersisted`).
- A rejected startup load leaves the list empty while the device still holds the old tasks. A later successful `addTask` then writes a one-task list over them. `Store.FailedLoadThenAddOverwrites` states this.
- Ids are not unique. `Store.DuplicateIdsDeletedTogether` shows that two tasks with the same id can coexist, and that one delete removes both.

## Model

The table lists the members that carry a contract. The step functions `Store.SetTaskStep`, `Store.AddTaskStep`, `Store.DeleteTaskStep`, `Store.LoadTasksStep` and `Store.ClearTasksStep` are the model of setTask (store/useStore.js:9), addTask (12-24), deleteTask (27-36), loadTasks (39-46) and clearTasks (49-56). They have no contract of their own. Each `TaskStore` method ensures that it performs its step, and the `Store` lemmas below state what the steps promise.

| member | source | states |
|---|---|---|
| Store.TaskStore.constructor | store/useStore.js:4-6 | a new store has an empty buffer and an empty list, and the device is untouched |
| Store.TaskStore.SetTask | store/useStore.js:9 | the new state is `SetTaskStep` of the old one: only the buffer changes |
| Store.TaskStore.AddTask | store/useStore.js:12-24 | the new state is `AddTaskStep` of the old state; the method writes through `SetItem`, updates the fields only when the write resolves, and keeps `Persisted` |
| Store.TaskStore.DeleteTask | store/useStore.js:27-36 | the new state is `DeleteTaskStep` of the old state (filtered list written, fields set only on success); keeps `Persisted` |
| Store.TaskStore.LoadTasks | store/useStore.js:39-46 | the new state is `LoadTasksStep` of the old state (list adopted only when a value is read); keeps `Persisted` |
| Store.TaskStore.ClearTasks | store/useStore.js:49-56 | the new state is `ClearTasksStep` of the old state (key deleted, then list emptied, only on success); keeps `Persisted` |
| Store.SetTaskOnlyBuffer | store/useStore.js:9 | setTask puts its argument in the buffer; the list and the device are unchanged |
| Store.AddBlankIsNoOp | store/useStore.js:13-14 | with an empty or whitespace-only buffer, addTask changes nothing and writes nothing |
| Store.AddAppendsOne | store/useStore.js:16-20 | a successful addTask adds exactly one task at the end, `{freshId, buffer as typed}`; the earlier tasks keep their values and order; the buffer becomes `""`; `"tasks"` holds the new list; other keys are unchanged |
| Store.AddGrowsIff | store/useStore.js:14-20 | the list grows by one if and only if the buffer is not blank and the write succeeds; otherwise its length is unchanged |
| Store.FailureChangesNothing | store/useStore.js:18-55 | a rejected write (addTask, deleteTask) or delete (clearTasks) leaves the buffer, the list and the device exactly as they were |
| Store.DeleteRemovesMatches | store/useStore.js:28-32 | after a successful deleteTask: a task is in the list iff it was there before and its id differs; the survivors keep their relative order; exactly as many tasks are removed as carried the id; the buffer is kept; `"tasks"` holds the new list |
| Store.DeleteAbsentKeepsList | store/useStore.js:28 | deleting an id that no task carries gives an identical list |
| Store.DuplicateIdsDeletedTogether | store/useStore.js:16-32 | adding the same name twice under the same id gives two equal tasks, and one deleteTask of that id removes both |
| Store.LoadAdoptsStoredOnly | store/useStore.js:40-45 | loadTasks replaces the list with the stored one only if the read succeeds and the key is present; otherwise the list is kept; the buffer and the device never change |
| Store.ClearEmpties | store/useStore.js:50-52 | a successful clearTasks removes `"tasks"`, empties the list, keeps the buffer and leaves other keys alone |
| Store.ClearThenLoadIsEmpty | store/useStore.js:41-52 | after a successful clearTasks, a later loadTasks leaves the list empty |
| Store.SuccessPersists | store/useStore.js:19-52 | whatever the prior state, a successful deleteTask or clearTasks, and an addTask that does anything, leave the device copy equal to the in-memory list |
| Store.StepPreservesPersisted | store/useStore.js:9-55 | from a state where the device copy equals the in-memory list, every operation, successful or not, keeps them equal |
| Store.RunPreservesPersisted | store/useStore.js:9-55 | from a state where the device copy equals the in-memory list, any sequence of operations keeps them equal |
| Store.ReachableFromEmptyDevicePersisted | store/useStore.js:4-55 | starting from a device with no stored list, every reachable state has the device copy equal to the in-memory list |
| Store.RestartWithLoadPersisted | store/useStore.js:39-46 | on any launch, whatever the device holds, if the first call is a successful loadTasks then every later state has the device copy equal to the in-memory list |
| Store.FailedLoadThenAddOverwrites | store/useStore.js:16-20 | with `"tasks"` stored, a rejected startup load followed by a successful addTask leaves both the list and the stored value equal to the one new task; if the stored list was non-empty, memory and device disagree after the failed load |
| Store.LoadWhenPersistedIsIdentity | store/useStore.js:41-42 | once memory and device agree, loadTasks changes nothing: the list written is the list read back |
| Storage.SecureStore.SetItem | store/useStore.js:19 | the call resolves iff the device accepts it; then the key maps to the value and the other keys are unchanged, otherwise nothing changes |
| Storage.SecureStore.GetItem | store/useStore.js:41 | the call resolves iff the device read succeeds; it then yields a value iff the key is present, and that value is the stored one |
| Storage.SecureStore.DeleteItem | store/useStore.js:51 | the call resolves iff the device accepts it; then the key is gone and the other keys are unchanged, otherwise nothing changes |
| Tasks.Without | store/useStore.js:28 | the filtered list holds exactly the tasks whose id differs; its length is the old length minus the number of matching tasks |
| Tasks.WithoutIsSubsequence | store/useStore.js:28 | the filtered list is a subsequence of the original: relative order is kept |
| Tasks.WithoutAppend | store/useStore.js:28 | filtering a concatenation is the concatenation of the filtered parts, so each task is kept or dropped in place |
| Tasks.WithoutAbsent | store/useStore.js:28 | when no task carries the id, filtering returns the same list |
| Tasks.WithoutIdempotent | store/useStore.js:28 | filtering twice by the same id is the same as filtering once |
| JsString.TrimStart | store/useStore.js:14 | the result is a suffix of the input; everything dropped is whitespace; the result does not start with whitespace |
| JsString.TrimEnd | store/useStore.js:14 | the result is a prefix of the input; everything dropped is whitespace; the result does not end with whitespace |
| JsString.LeadingBlankCount | store/useStore.js:14 | the count is the length of the longest all-whitespace prefix: that prefix is blank and the next character, if any, is not whitespace |
| JsString.TrailingBlankCount | store/useStore.js:14 | the count is the length of the longest all-whitespace suffix: that suffix is blank and the character before it, if any, is not whitespace |
| JsString.Trim | store/useStore.js:14 | `trim()` leaves no whitespace at either end of its result and never makes a string longer; `TrimDecompose` and `TrimDropsOnlyBlanks` fix which slice it keeps |
| JsString.TrimDecompose | store/useStore.js:14 | the input is the leading whitespace, then the `trim()` result, then the rest: `trim()` keeps one contiguous slice |
| JsString.TrimDropsOnlyBlanks | store/useStore.js:14 | what `trim()` drops before and after that slice is all whitespace |
| JsString.TrimEmptyIffBlank | store/useStore.js:14 | `trim()` returns `""` if and only if every character is whitespace, which is when `!task.trim()` holds |

## Left out

- Screens and navigation are not part of this model: app/index.jsx, app/about.jsx, app/_layout.jsx, app/task/[id].jsx and components/TaskItem.jsx. This includes `handleAddTask`, which repeats the store's blank check and then calls `setTask("")` itself, and the status colour lookup.
- app/cameraScreen.jsx is not part of this model. It handles camera permission, recording, and the `videoUri-<id>` breadcrumb in a different storage library.
- `updateTask`, status and notes: app/about.jsx calls `updateTask`, but the store does not define it, so the model has no update operation and no such fields.
- Overlapping asynchronous calls: each operation is modelled as atomic. In the app, two calls can read the same snapshot, and the later write wins.
- JSON encoding and decoding are taken to round-trip exactly. A stored value that parses to something other than a task list is not modelled. A read error and a parse error are one case: the read is rejected.
- Truthiness of the stored string: a stored value counts as present whenever the key exists. The code tests the stored string for truthiness, but the store only ever writes the non-empty JSON of an array.
- The device is taken to apply a write or a delete entirely or not at all: a rejected `setItemAsync` or `deleteItemAsync` leaves it unchanged. `Storage.SecureStore.SetItem`, `Storage.SecureStore.DeleteItem`, `Store.FailureChangesNothing` and `Store.StepPreservesPersisted` rest on this, and a partial write is not modelled.
- `Date.now()`, and the device's success or failure, are parameters. Nothing is claimed about id uniqueness.
- `console.error` logging is left out.
- JavaScript strings are UTF-16 code units; here a string is a sequence of Unicode code points, so lone surrogates cannot be represented. Every character `trim()` strips is a single code unit, and id comparison is equality either way.
- Notifying subscribers: the model has no observers. Publishing is the assignment to the fields.
