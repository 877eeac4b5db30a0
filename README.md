# Task board store: a Dafny model

This project models the client-side task store of a three-column task board (todo, in progress, done). The store is backed by a remote CRUD service. It also models the board's drag-and-drop decision rule and its column projection.

The store keeps `items`, `loading` and `error`. Five asynchronous operations drive it: fetch, add, update, delete and move. Each has a pending, a fulfilled and a rejected reducer case. The network call itself is not modelled. Each reducer case is a method of the `TasksSlice.Store` class. The method takes the server's result, or the rejection value, as a parameter. Any interleaving of in-flight operations is an arbitrary order of calls to these methods. The scenarios in `scenarios.dfy` show such orders, for example a stale response that lands last and wins.

A task is a JavaScript object whose fields hold strings. It is modelled as `map<string, string>`. Object spread `{...t, k: v}` is then map update, and a missing field (`undefined`) reads as `None`. The payload builders, the delete filter and the selectors are pure functions. The reducers are methods that reassign the class's fields.

Files:
- `wrappers.dfy`: `Option`.
- `seqs.dfy`: order-preserving `Filter`, with lemmas for subsequence, occurrence counts, idempotence and distinct keys.
- `tasks_slice.dfy`: rejection payloads, the add and move payloads, `findIndex`/`find`, the update, move and delete results, the status selector, their lemmas, and the `Store` class.
- `task_board.dfy`: `handleDragEnd` and the fixed columns.
- `scenarios.dfy`: concrete sequences of calls on the store, with what each ends in.

Behaviour of the code worth knowing:
- `loading` is a plain flag, not a count of outstanding operations. The first fetch, add, update or delete to complete sets it to `false`, even while another is still in flight (`Scenarios.OverlappingFetchAndAdd`).
- The add payload does not default `priority` and does not check that `title` is non-empty. Only `status` gets a default.
- A move of an id that is not in `items` still sends a request. The body then holds only `status`, because spreading `undefined` adds no fields.

## Model

| member | source | states |
|---|---|---|
| `Seqs.Filter` | src/redux/tasksSlice.js:136 | the result has the elements of the input that satisfy the predicate, and only those, and is no longer than the input |
| `Seqs.FilterIsSubsequence` | src/redux/tasksSlice.js:163 | filtering keeps the original order: the result is a subsequence of the input |
| `Seqs.FilterCount` | src/redux/tasksSlice.js:136 | each kept value occurs as often as in the input; each dropped value does not occur |
| `Seqs.FilterIdempotent` | src/redux/tasksSlice.js:136 | filtering twice with one predicate equals filtering once |
| `Seqs.FilterKeepsDistinctKeys` | src/redux/tasksSlice.js:136 | if no two positions of the input share a key, none of the result do |
| `TasksSlice.RejectionPayload` | src/redux/tasksSlice.js:11-13 | the rejection value is the response data when that is truthy, else the thunk's fallback message; with a non-empty fallback it is never empty |
| `TasksSlice.AddPayload` | src/redux/tasksSlice.js:21-26 | the record keeps every draft field except `id`, `createdAt` and `status`; those three are always present; `id` and `createdAt` are the given values; `status` is the draft's when truthy, else "todo", so it is always truthy |
| `TasksSlice.FindIndex` | src/redux/tasksSlice.js:120 | the result is -1 exactly when no entry has the key as id; otherwise it is the first index whose id is the key |
| `TasksSlice.Find` | src/redux/tasksSlice.js:63 | the result is absent exactly when no entry has the id; otherwise it is the first entry of `items` with that id |
| `TasksSlice.MovePayload` | src/redux/tasksSlice.js:63-64 | the body's status is the new status; with a local record for the id, the body has that record's fields and ids, all values except status unchanged; without one, the body holds only `status` |
| `TasksSlice.ReplaceFirst` | src/redux/tasksSlice.js:118-124 | the length and the id at every index are unchanged; the first entry with the payload's id is replaced by the payload at its index and every other entry is unchanged; with no match the items are unchanged; the payload ends up in the items exactly when an entry had its id (or it was already there) |
| `TasksSlice.Without` | src/redux/tasksSlice.js:134-137 | a task is in the result exactly when it is in `items` and its id is not the deleted one |
| `TasksSlice.SelectTasksByStatus` | src/redux/tasksSlice.js:162-163 | a task is in the result exactly when it is in `items` with the given status |
| `TasksSlice.DeleteKeepsOthersInOrder` | src/redux/tasksSlice.js:134-137 | delete result is a subsequence of `items`; tasks with the id occur 0 times, all others as often as before |
| `TasksSlice.DeleteIdempotent` | src/redux/tasksSlice.js:136 | deleting the same id twice gives the same items as deleting it once |
| `TasksSlice.DeletePreservesUniqueIds` | src/redux/tasksSlice.js:134-137 | if ids are unique before a delete they are unique after it |
| `TasksSlice.SelectByStatusExact` | src/redux/tasksSlice.js:162-163 | the selection is a subsequence of `items`; each task with the status occurs as often as in `items`, all others 0 times |
| `TasksSlice.ReplacePreservesUniqueIds` | src/redux/tasksSlice.js:118-124 | an update or move result keeps unique ids unique |
| `TasksSlice.LastResponseWins` | src/redux/tasksSlice.js:146-151 | applying two fulfilled payloads with the same id equals applying only the one applied last, whatever order the requests were issued in |
| `TasksSlice.ReplacesOfDifferentIdsCommute` | src/redux/tasksSlice.js:118-124 | fulfilled updates or moves for different ids give the same items in either order |
| `TasksSlice.AppendUniqueIds` | src/redux/tasksSlice.js:105-108 | after an append, ids are unique if and only if they were unique before and the new id was not present: add does not check for duplicates |
| `TasksSlice.MoveEchoChangesOnlyStatus` | src/redux/tasksSlice.js:146-151 | when the server echoes the move body, the moved entry keeps its index and all fields except status; its status is the new one and it is selected under that status; every other entry is unchanged |
| `TasksSlice.Store.constructor` | src/redux/tasksSlice.js:75-79 | the initial state is no items, not loading, no error |
| `TasksSlice.Store.ClearError` | src/redux/tasksSlice.js:81-83 | error becomes null; items and loading are unchanged |
| `TasksSlice.Store.FetchPending` | src/redux/tasksSlice.js:88-91 | loading is set and error cleared; items unchanged |
| `TasksSlice.Store.FetchFulfilled` | src/redux/tasksSlice.js:92-95 | the server's list replaces items wholesale; loading cleared; error unchanged |
| `TasksSlice.Store.FetchRejected` | src/redux/tasksSlice.js:96-99 | error is the rejection value; loading cleared; items unchanged |
| `TasksSlice.Store.AddPending` | src/redux/tasksSlice.js:101-104 | loading is set and error cleared; items unchanged |
| `TasksSlice.Store.AddFulfilled` | src/redux/tasksSlice.js:105-108 | the length grows by one, the payload is last, and every earlier entry is unchanged; loading cleared |
| `TasksSlice.Store.AddRejected` | src/redux/tasksSlice.js:109-112 | error is the rejection value; loading cleared; items unchanged |
| `TasksSlice.Store.UpdatePending` | src/redux/tasksSlice.js:114-117 | loading is set and error cleared; items unchanged |
| `TasksSlice.Store.UpdateFulfilled` | src/redux/tasksSlice.js:118-124 | items become the first-match replacement of the old items, and unique ids stay unique; loading cleared; error unchanged |
| `TasksSlice.Store.UpdateRejected` | src/redux/tasksSlice.js:125-128 | error is the rejection value; loading cleared; items unchanged |
| `TasksSlice.Store.DeletePending` | src/redux/tasksSlice.js:130-133 | loading is set and error cleared; items unchanged |
| `TasksSlice.Store.DeleteFulfilled` | src/redux/tasksSlice.js:134-137 | items become the old items without the id, and unique ids stay unique; loading cleared; error unchanged |
| `TasksSlice.Store.DeleteRejected` | src/redux/tasksSlice.js:138-141 | error is the rejection value; loading cleared; items unchanged |
| `TasksSlice.Store.MovePending` | src/redux/tasksSlice.js:143-145 | error cleared; items and loading unchanged |
| `TasksSlice.Store.MoveFulfilled` | src/redux/tasksSlice.js:146-151 | same replacement rule as update, and unique ids stay unique; loading and error unchanged |
| `TasksSlice.Store.MoveRejected` | src/redux/tasksSlice.js:152-154 | error is the rejection value; items and loading unchanged |
| `TaskBoard.HandleDragEnd` | src/components/TaskBoard.js:21-44 | no move when there is no destination or the destination column is the source column (same index or not); otherwise exactly one move of the dragged id to the destination column's id |
| `TaskBoard.Columns` | src/components/TaskBoard.js:11-19 | three columns with ids todo, inProgress, done in that order; a task is in a column exactly when it is in `items` with that column's id as status |
| `TaskBoard.ColumnsPartition` | src/components/TaskBoard.js:11-19 | each column is a subsequence of `items`; across the three columns, a task with one of the three statuses occurs as often as in `items` and in exactly one column; any other task occurs in none |
| `TaskBoard.DropOnOtherColumnMovesTask` | src/components/TaskBoard.js:38-43 | a drop on another board column dispatches a move; once the server confirms the body it was sent, the dragged task has the new status, keeps its index and other fields, and is in the destination column |

## Left out

- HTTP requests (`src/services/api.js`) and the json-server backend (`server.js`) are not modelled. The remote store is an opaque source of results and rejection values, passed to the fulfilled and rejected methods.
- Rendering, modal state and the drag-and-drop library glue are not modelled: `src/App.js`, `src/components/TaskColumn.js`, `src/components/TaskModal.js` and `src/components/TaskCard.js`. That includes `formatDate` and `getPriorityColor`.
- `Date.now().toString()` and `new Date().toISOString()` are not computed. They are the `id` and `createdAt` parameters of `AddPayload`.
- The shape of `error.response?.data` is not modelled. It is an optional string; non-string response bodies are out of scope.
- Field values are modelled as strings only, which is all this board stores. Numbers, booleans and nested objects are not modelled.
- `selectAllTasks`, `selectTasksLoading` and `selectTasksError` are not separate members. They are plain field reads, and the model reads `items`, `loading` and `error` directly.
- Redux Toolkit, Immer and asynchronous scheduling are not modelled. Each thunk outcome is an explicit method call, in any order. The pending-then-settled order of one thunk is not enforced.
- `TaskBoard.Columns` fixes the column titles and colours in its body; the contract states only the ids and the contents.
