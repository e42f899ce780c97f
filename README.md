# Task and workflow dashboard: services and task list state

This project models the logic of a task/workflow dashboard whose data lives in a
hosted record backend reached through an SDK. It covers three parts.

- **Task service** (`src/services/taskService.js`). It holds the task field table,
  where each field is either Updateable or System. From the table it derives the
  updateable and all-field lists. It builds the parameters of a task fetch and
  computes the statistics over all tasks. It also builds the create, update and
  delete payloads and reads the SDK's responses.
- **Workflow service** (`src/services/workflowService.js`). It follows the same
  pattern with a smaller table, plus the active-workflow count.
- **Task list component** (`src/components/MainFeature.jsx`). It holds the task
  list state. The model covers how fetched rows become view records, how add,
  delete, toggle and edit change the list, and which tasks the list shows for a
  search term and status filter.

The SDK is not modelled. Each SDK call is a `Reply` parameter: the response it
resolved with, or `Rejected` when the promise rejects. JavaScript values are the datatype `Js.JsValue`. A
plain object is a `map<string, JsValue>`, and a missing key reads as `undefined`.
The model keeps JavaScript truthiness, `||`, `!`, destructuring defaults,
`trim`, `includes` and the TypeError of reading a property of `undefined`/`null`.

Files and modules:

- `js.dfy` (`Js`): the JavaScript values and operations listed above.
- `seqs.dfy` (`Seqs`): `filter` and order-preserving subsequences.
- `fields.dfy` (`Fields`): field tables and the payload projection. The
  projection is the `forEach` loop, written as a method with a loop invariant.
- `gateway.dfy` (`Gateway`): request and response shapes, and how a write or
  fetch response becomes a value or an error.
- `task_service.dfy` (`TaskService`), `workflow_service.dfy` (`WorkflowService`):
  one module per service.
- `main_feature.dfy` (`MainFeature`): view records, the pure list operations,
  and the class `Component`. The class has the component's state hooks as fields
  and one method per handler.

Two behaviours of the code that the model keeps:

- `deleteTask` (`src/services/taskService.js:235-249`) has no id guard. Only
  `updateTask` checks `Id` (line 199).
- `handleDeleteTask` (`src/components/MainFeature.jsx:87-95`) drops the task
  whenever the delete call resolves, even when the response reports no success.
  Only a rejected call leaves the list as it was.

## Model

| member | source | states |
|---|---|---|
| `Js.TrimEmptyIffBlank` | src/components/MainFeature.jsx:55 | `s.trim() === ''` holds exactly when every character of `s` is JavaScript whitespace |
| `Js.IncludesEmpty` | src/components/MainFeature.jsx:153 | every title includes the empty search term |
| `Seqs.Filter` | src/components/MainFeature.jsx:152-160 | `filter` returns at most as many elements; each survivor is an input element that passes; every passing input element survives |
| `Seqs.FilterCounts` | src/components/MainFeature.jsx:152-160 | `filter` keeps every passing value exactly as often as the input holds it and drops every other value |
| `Seqs.FilterIsSubsequence` | src/components/MainFeature.jsx:90 | `filter` keeps its survivors in their original order |
| `Seqs.FilterKeepsAll` | src/components/MainFeature.jsx:152-160 | a filter that rejects nothing returns its input unchanged |
| `Fields.UpdateableNames` | src/services/taskService.js:20-22 | the updateable list is no longer than the field table |
| `Fields.AllNames` | src/services/taskService.js:25 | the all-fields list has one name per table entry, in table order |
| `Fields.UpdateableNamesMembers` | src/services/taskService.js:20-22 | a name is in the updateable list exactly when an Updateable entry of the table carries it |
| `Fields.UpdateableNamesInOrder` | src/services/taskService.js:20-25 | the updateable list is a subsequence of the all-fields list, so table order is kept |
| `Fields.Projection` | src/services/taskService.js:170-175 | a payload key is exactly a listed field whose input value is not `undefined`; its value is the input value unchanged |
| `Fields.ProjectionStep` | src/services/taskService.js:170-175 | adding one field to the list adds that key with its input value when the value is defined, and changes nothing otherwise |
| `Fields.ProjectInto` | src/services/taskService.js:207-212 | the `forEach` loop yields the seed object overwritten by the projection of the input |
| `Gateway.WriteOutcome` | src/services/taskService.js:181-185 | success exactly when `results[0]` exists with a truthy `success`, yielding its `data`; otherwise an error with `results[0].message` if truthy, else the fallback; a rejected call is a network error |
| `Gateway.FetchOutcome` | src/services/taskService.js:95 | a resolved fetch yields `data`, or `[]` when `data` is missing; only a rejected call fails |
| `TaskService.UpdateableFieldsFromTable` | src/services/taskService.js:6-22 | the task updateable fields, Name, Tags, Owner, title, completed, priority, are exactly the Updateable entries of the table, in table order |
| `TaskService.AllFieldsAreExactly` | src/services/taskService.js:6-25 | a task fetch asks for all ten fields in declaration order |
| `TaskService.SystemFieldsAreTheSystemEntries` | src/services/taskService.js:6-17 | CreatedOn, CreatedBy, ModifiedOn, ModifiedBy are exactly the System entries of the task table |
| `TaskService.SystemFieldsNeverUpdateable` | src/services/taskService.js:6-22 | no System field is a task updateable field |
| `TaskService.TaskWhere` | src/services/taskService.js:63-92 | the filters hold the title/Contains clause if `searchTerm` is truthy, the completed/ExactMatch clause if `filterStatus` is not 'all', and the priority/ExactMatch clause if `priority` is truthy; each appears only then, in that order, and there are no others |
| `TaskService.FetchTasksQuery` | src/services/taskService.js:48-92 | a task fetch asks for all fields, ordered by ModifiedOn DESC, limit 100 offset 0; `where` is absent exactly when the search term and priority are falsy and the status is 'all' |
| `TaskService.NullStatusIsNotDefaulted` | src/services/taskService.js:42-82 | the destructuring defaults replace only `undefined`: `{filterStatus: null}` sends the `completed` = false filter, `{filterStatus: undefined}` sends no filter |
| `TaskService.FetchTasks` | src/services/taskService.js:41-96 | building `params` by assignment and `push` yields exactly the query above; the result is `response.data`, or `[]` |
| `TaskService.CountCompleted` | src/services/taskService.js:121 | the completed count is at most the number of tasks; it is 0 exactly when no task is completed, and the total exactly when all are |
| `TaskService.CountCompletedIsFilterLength` | src/services/taskService.js:121 | the count is the length of `tasks.filter(task => task.completed)` |
| `TaskService.Productivity` | src/services/taskService.js:142-145 | productivity lies in [0,100]; it is 0 with no tasks or none completed and 100 when all are completed; otherwise it is 100·completed/total rounded half up |
| `TaskService.RoundedPercentBounds` | src/services/taskService.js:143-145 | the rounded percentage of completed over a positive total lies in [0,100] and brackets 100·completed/total within half a unit |
| `TaskService.StatsOf` | src/services/taskService.js:120-152 | total and high-priority counts are the row counts; tasksCompleted is the count of completed rows, at most totalTasks; productivity is 0 with no rows or none completed, 100 when all are, and otherwise 100·tasksCompleted/totalTasks rounded half up |
| `TaskService.GetTaskStats` | src/services/taskService.js:107-158 | issues the completed-field fetch, then the priority = 'high' fetch only if the first resolved; fails if either rejects; otherwise yields the statistics of the two row lists |
| `TaskService.CreatePayloadShape` | src/services/taskService.js:170-175 | the create payload's keys are exactly Name, Tags, Owner, title, completed, priority where defined; values unchanged; no System field |
| `TaskService.CreateTask` | src/services/taskService.js:165-191 | sends the projected payload and yields `results[0].data` or the error, with fallback "Failed to create task" |
| `TaskService.UpdatePayload` | src/services/taskService.js:199-212 | no payload is built exactly when `Id` is falsy; otherwise the payload carries `Id` unchanged |
| `TaskService.UpdatePayloadKeys` | src/services/taskService.js:207-212 | besides `Id`, the update payload holds exactly the defined updateable fields, values unchanged |
| `TaskService.UpdatePayloadHasNoSystemField` | src/services/taskService.js:207-212 | an update payload never carries a System field |
| `TaskService.UpdateOutcome` | src/services/taskService.js:199-222 | a falsy `Id` fails with "Task ID is required for update" before any response is read; otherwise the response decides, with fallback "Failed to update task" |
| `TaskService.ZeroIdIsRefused` | src/services/taskService.js:199-201 | an `Id` of 0 is refused with no request sent |
| `TaskService.UpdateTask` | src/services/taskService.js:198-228 | the guard comes first and sends nothing; otherwise `{Id}` plus the projected fields is sent and the response read |
| `TaskService.SuccessFlag` | src/services/taskService.js:243 | `response && response.success` is a falsy response itself, or the `success` of a response object |
| `TaskService.DeleteOutcome` | src/services/taskService.js:235-249 | delete fails only when the call rejects; a resolved call yields the success flag, whatever it is |
| `TaskService.DeleteTask` | src/services/taskService.js:235-249 | asks to delete exactly the one given id, with no id guard |
| `WorkflowService.UpdateableFieldsFromTable` | src/services/workflowService.js:6-20 | the workflow updateable fields, Name, Tags, Owner, active, are exactly the Updateable entries of the table, in table order |
| `WorkflowService.AllFieldsAreExactly` | src/services/workflowService.js:6-23 | a workflow fetch asks for all eight fields in declaration order |
| `WorkflowService.SystemFieldsNeverUpdateable` | src/services/workflowService.js:6-20 | the four System entries are exactly CreatedOn, CreatedBy, ModifiedOn, ModifiedBy, and none is updateable |
| `WorkflowService.WorkflowWhere` | src/services/workflowService.js:61-79 | the filters hold Name/Contains first if `searchTerm` is truthy, then active/ExactMatch [true] if `activeOnly` is truthy, and nothing else |
| `WorkflowService.FetchWorkflowsQuery` | src/services/workflowService.js:46-79 | a workflow fetch asks for all fields, ModifiedOn DESC, limit 100 offset 0; `where` is absent exactly when the search term and `activeOnly` are falsy |
| `WorkflowService.FetchWorkflows` | src/services/workflowService.js:39-88 | building `params` by assignment and `push` yields exactly the query above; the result is `response.data`, or `[]` |
| `WorkflowService.ActiveCount` | src/services/workflowService.js:113 | the count is the number of returned rows, 0 when `data` is missing; only a rejected call fails |
| `WorkflowService.GetActiveWorkflowCount` | src/services/workflowService.js:94-119 | the count query always filters active = true (Id field, limit 1000) and yields the row count |
| `WorkflowService.CreatePayloadShape` | src/services/workflowService.js:131-136 | the create payload's keys are exactly Name, Tags, Owner, active where defined; values unchanged; no System field |
| `WorkflowService.CreateWorkflow` | src/services/workflowService.js:126-152 | sends the projected payload and yields `results[0].data` or the error, with fallback "Failed to create workflow" |
| `MainFeature.ToView` | src/components/MainFeature.jsx:39-44 | a view record takes `id` from `Id`; its title is `title`, or `Name` when `title` is falsy; `completed` is kept as it is when truthy and is false otherwise; `priority` is kept when truthy and is 'medium' otherwise |
| `MainFeature.ToViews` | src/components/MainFeature.jsx:39-44 | the transform keeps the length and order of the fetched rows |
| `MainFeature.LoadQueryFilters` | src/components/MainFeature.jsx:31-36 | loading sends no `where` for an empty search with 'all'; a search matches on title; 'active' and 'completed' filter `completed` on false and true |
| `MainFeature.NewTaskPayloadIsTaskData` | src/components/MainFeature.jsx:61-68 | the create payload of a new task is its Name, title, completed and priority, unchanged |
| `MainFeature.AddedTask` | src/components/MainFeature.jsx:68-78 | the appended task is `{id: created.Id, title, completed: false, priority: 'medium'}`; nothing is appended when the create fails or its record is `undefined`/`null` |
| `MainFeature.WithoutId` | src/components/MainFeature.jsx:90 | deleting keeps the other tasks in order, each as often as it occurs in the list, and drops every task with the id |
| `MainFeature.DeleteAbsentIsNoOp` | src/components/MainFeature.jsx:90 | deleting an id that no task carries leaves the list unchanged |
| `MainFeature.FirstWithId` | src/components/MainFeature.jsx:98-99 | `find` yields nothing exactly when no task has the id; otherwise the first task with the id |
| `MainFeature.Toggled` | src/components/MainFeature.jsx:108-113 | toggling keeps length, ids, titles and priorities; it negates `completed` on tasks with the id and leaves all others unchanged |
| `MainFeature.ToggleAbsentIsNoOp` | src/components/MainFeature.jsx:108-113 | toggling an id no task carries changes nothing |
| `MainFeature.ToggleTwiceRestores` | src/components/MainFeature.jsx:108-113 | toggling twice restores the list when the toggled tasks have boolean `completed` |
| `MainFeature.Replaced` | src/components/MainFeature.jsx:139-141 | saving keeps length and ids; every task with the edited id becomes the edited task and the rest are unchanged |
| `MainFeature.Visible` | src/components/MainFeature.jsx:152-160 | the shown tasks are an order-preserving subsequence of the list; a task is shown, as often as it occurs in the list, exactly when its lower-cased title includes the lower-cased search and it passes the status filter; a non-string title makes the filter throw |
| `MainFeature.EmptySearchShowsAll` | src/components/MainFeature.jsx:152-160 | an empty search with 'all' shows the whole list |
| `MainFeature.Component.constructor` | src/components/MainFeature.jsx:16-21 | the initial state: no tasks, empty input, loading, empty search, filter 'all', nothing being edited |
| `MainFeature.Component.FilteredTasks` | src/components/MainFeature.jsx:152-160 | for the current state, the render throws exactly when a title is not a string; otherwise the shown tasks are the current tasks matching the current search and filter, in order and with their multiplicity |
| `MainFeature.Component.LoadTasks` | src/components/MainFeature.jsx:28-52 | fetches with the current search and filter; on success the list becomes the transformed rows, otherwise it is kept; loading ends either way |
| `MainFeature.Component.AddTask` | src/components/MainFeature.jsx:54-85 | a blank input sends nothing and changes nothing; otherwise the new task is sent, and on success exactly one task is appended at the end and the input is cleared |
| `MainFeature.Component.HandleDeleteTask` | src/components/MainFeature.jsx:87-95 | sends the id; if the call rejects the list is unchanged, otherwise every task with the id is removed, order kept |
| `MainFeature.Component.ToggleComplete` | src/components/MainFeature.jsx:96-120 | with no task of that id nothing is sent and nothing changes; otherwise `{Id, completed: !first.completed}` is sent and, if the update succeeds, the tasks with the id are toggled |
| `MainFeature.Component.StartEditing` | src/components/MainFeature.jsx:122-124 | the given task becomes the task being edited; nothing else changes |
| `MainFeature.Component.SaveEdit` | src/components/MainFeature.jsx:125-149 | with no edit or a blank title nothing is sent and nothing changes; otherwise `{Id, title, priority}` is sent and, on success, tasks with the edited id are replaced and editing ends |

## Left out

- Theme handling in `src/App.jsx`: it depends on `localStorage`, `matchMedia` and the DOM.
- `src/pages/Home.jsx`, `src/pages/NotFound.jsx`: rendering, a timer and two sequential service calls.
- `src/components/TaskForm.jsx`: form wiring. Its one rule, the non-blank title check, is the one `MainFeature.Component.AddTask` models.
- The SDK (`getApperClient`, `fetchRecords`, `createRecord`, `updateRecord`, `deleteRecord`) and credentials: each call is a `Reply` parameter.
- TaskService.FetchTasks, TaskService.GetTaskStats, TaskService.CreateTask, TaskService.UpdateTask, TaskService.DeleteTask, WorkflowService.FetchWorkflows, WorkflowService.GetActiveWorkflowCount, WorkflowService.CreateWorkflow: a missing SDK object makes `getApperClient` throw before any request is built. The model has no such case. The parameters, queries and payloads these members return are what would be sent, and a call that never happens appears as a `Rejected` reply.
- The server-side meaning of Contains and ExactMatch: only the request shape is modelled.
- Toasts, `console.error`, animation and all JSX.
- Await ordering, and the `useEffect` that reloads tasks when the search term or filter changes: callers invoke `LoadTasks` themselves.
- Input setters (`setNewTask`, `setSearchTerm`, `setFilterStatus`, the edit-title `onChange`): these are plain assignments to the class's fields.
- Numbers are integers: NaN and fractions are not modelled, and object identity is not modelled, so `===` is value equality.
- Properties of primitives and arrays (`length`, methods) read as `undefined`.
- Key order inside a payload object: payloads are maps.
- A fetch that resolves with `null` itself, where `response.data` would throw: fetch responses are always objects.
- A `null` entry at `results[0]`: it behaves exactly like an empty `results` list, which is what is modelled.
- TaskService.Productivity: rounds exactly on rationals, floor(100·c/t + 1/2). The contract pins that value exactly, by the bracket `2·t·p ≤ 200·c + t < 2·t·(p+1)`. Floating-point `Math.round` of `(c / t) * 100` can land on the other side of a .5 boundary when the float product is inexact; that difference is not modelled.
- MainFeature.Visible: `toLowerCase` is modelled for ASCII letters only; other characters are left as they are.
