# Task list: a verified model of the store, the API route and the page state

This project models the logic of a small to-do application written in
TypeScript with Next.js and React. A task is `{id, title, completed}`. The model
covers these parts:

- **`Tasks`** (`tasks.dfy`) holds the `Task` record and the list operations the
  other layers share. `Find` is `Array.prototype.find` by id. `RemoveId` is
  `filter` by id. `CountCompleted` is the completed count. `TaskId` builds the
  `task-<milliseconds>` ids. `Seed` is the five tasks the application starts with.
- **`TaskStore`** (`task_store.dfy`) is the in-memory store of
  `src/lib/db-browser.ts`. It is a `Store` class whose `tasks` field is the
  module-level list, with `GetAll`, `GetById`, `Create`, `ToggleComplete` and
  `Delete`. The clock reading `Date.now()` is the `now` parameter of `Create`.
- **`TasksApi`** (`tasks_api.dfy`) is the `GET`/`POST` route of
  `src/pages/api/tasks/index.ts`. `Dispatch` is the pure decision on the method
  and the body's `title`. `Handle` runs that decision against a `Store`.
- **`IndexPage`** (`index_page.dfy`) is the server-backed page of
  `src/pages/index.tsx`. Its state is the task list, the `isLoading` flag and the
  error toasts shown so far. Each handler is split at its `await` into `Begin`
  (the busy flag goes up) and a `Complete...` step. That step receives what the
  awaited `fetch` produced: `Ok(body)` or `Failed`.
- **`HomeDemo`** (`home_demo.dfy`) is the locally simulated page of
  `src/components/home.tsx`. It is split the same way, with the timer callback as
  the second step.
- **`TaskForm`** (`task_form.dfy`) is the add form of
  `src/components/TaskForm.tsx`: JavaScript's `trim`, the submit rule and the two
  `disabled` rules.

Some behaviours of the code are worth noting:

- The code never checks that a new id is unused. Two tasks created in the same
  millisecond share an id. `TaskIdInjective` and `FindAfterAppend` state what
  follows: the later task is shadowed for `getById` and `toggleComplete`.
- `POST` rejects an empty-string title with 400, because the check is `!title`.
- A null or undefined request body makes the destructuring `const { title } = req.body`
  throw, so the route answers 500, not 400.
- The route file imports the SQLite-backed store (`src/lib/db.ts`), and that
  store is not part of this model. `TasksApi.Handle` runs against the in-memory
  `Store`, which has the same `getAll` and `create` contract whenever the store
  does not throw. Its `raises` input stands for the store throwing. With SQLite
  that happens on a primary-key clash, for example: SQLite refuses a repeated id,
  while the in-memory `create` appends it, so `Handle` with `raises` false can
  store a duplicate id that the SQLite-backed route never stores.

## Model

| member | source | states |
|---|---|---|
| `Tasks.Flip` | src/components/home.tsx:47 | `{ ...task, completed: !task.completed }` keeps the id and the title and negates the flag |
| `Tasks.TaskId` | src/lib/db-browser.ts:32 | `task-${Date.now()}` is the prefix `task-` followed by the decimal digits of the clock reading: they read back as that reading and have no leading zero |
| `Tasks.Decimal` | src/lib/db-browser.ts:32 | the millisecond count is printed as a non-empty string of decimal digits, and has one digit exactly when it is below 10 |
| `Tasks.DecimalValue` | src/lib/db-browser.ts:32 | the printed millisecond count reads back, digit by digit, as the count itself, and has no leading zero unless it is `0` |
| `Tasks.DecimalInjective` | src/lib/db-browser.ts:32 | two different millisecond counts never print the same way |
| `Tasks.TaskIdInjective` | src/lib/db-browser.ts:32 | `task-${Date.now()}` ids are equal exactly when the clock readings are equal, so tasks created in the same millisecond collide |
| `Tasks.FirstIndex` | src/lib/db-browser.ts:27 | the position found holds the id and no earlier position does; nothing is found exactly when no task has the id |
| `Tasks.FirstIndexUnique` | src/lib/db-browser.ts:27 | any position holding the id with no earlier match is the one the lookup finds |
| `Tasks.Find` | src/lib/db-browser.ts:26-28 | `find` gives nothing exactly when no task has the id; otherwise it gives a task of the list with that id, and every earlier task has another id |
| `Tasks.FirstIndexSameIds` | src/lib/db-browser.ts:45-48 | the lookup depends only on the ids, so flipping a flag never moves the match |
| `Tasks.FindAfterAppend` | src/lib/db-browser.ts:31-40 | after a create whose id is already taken, lookup still finds the older task; with a fresh id it finds the new task |
| `Tasks.RemoveId` | src/lib/db-browser.ts:55 | the filtered list holds exactly the tasks of the list whose id differs; it is shorter exactly when some task had the id |
| `Tasks.RemoveIdKeepsOrder` | src/lib/db-browser.ts:55 | the filtered list is a subsequence of the original: the remaining tasks keep their relative order |
| `Tasks.RemoveIdCounts` | src/lib/db-browser.ts:55 | every occurrence of a task with the id is dropped and every other task keeps its number of occurrences |
| `Tasks.RemoveAbsentId` | src/lib/db-browser.ts:53-57 | deleting an id no task has leaves the list as it was |
| `Tasks.RemoveIdTwice` | src/lib/db-browser.ts:53-57 | after a delete no task has the id, and deleting again changes nothing |
| `Tasks.CountCompleted` | src/pages/index.tsx:19 | the completed count is at most the number of tasks; it is 0 exactly when none is completed and the total exactly when all are |
| `Tasks.CountCompletedAppend` | src/pages/index.tsx:19 | the count of a concatenation is the sum of the counts |
| `Tasks.CountCompletedUpdate` | src/pages/index.tsx:19 | replacing one task changes the count by the difference of the two flags |
| `Tasks.CountCompletedRemove` | src/pages/index.tsx:19 | deleting never raises the count, and deleting an absent id leaves it unchanged |
| `Tasks.Seed` | src/lib/db-browser.ts:10-16 | the seeded list has five tasks, two of them completed, all with distinct ids |
| `TaskStore.ToggleFirst` | src/lib/db-browser.ts:44-50 | toggling keeps the length, ids and titles; with an absent id nothing changes; otherwise exactly the first task with the id is flipped and every other task is unchanged |
| `TaskStore.ToggleFirstTwice` | src/lib/db-browser.ts:48 | toggling the same id twice restores the store |
| `TaskStore.ToggleFirstCount` | src/lib/db-browser.ts:48 | toggling a present id moves the completed count up by one if the task became completed, else down by one |
| `TaskStore.Store.constructor` | src/lib/db-browser.ts:10-16 | the store starts with the five seeded tasks |
| `TaskStore.Store.GetAll` | src/lib/db-browser.ts:21-23 | `getAll` returns the stored list in order and changes nothing |
| `TaskStore.Store.Locate` | src/lib/db-browser.ts:27 | the left-to-right scan stops at the first task with the id, or finds none |
| `TaskStore.Store.GetById` | src/lib/db-browser.ts:26-28 | `getById` returns the first stored task with the id, and nothing exactly when no task has it |
| `TaskStore.Store.Create` | src/lib/db-browser.ts:31-40 | `create` appends exactly `{task-<now>, title, false}` after the unchanged earlier tasks and returns it |
| `TaskStore.Store.ToggleComplete` | src/lib/db-browser.ts:44-50 | the store becomes the first-match toggle of the old store; an absent id returns nothing and changes nothing; otherwise the returned copy carries the negated flag |
| `TaskStore.Store.Delete` | src/lib/db-browser.ts:53-57 | the store becomes the filtered list; the result is true exactly when the length dropped, which happens exactly when the id was present; afterwards lookup finds nothing |
| `TaskStore.DeleteTwice` | src/lib/db-browser.ts:53-57 | a second delete of the same id returns false and leaves the store as the first delete left it |
| `TasksApi.Falsy` | src/pages/api/tasks/index.ts:16 | defined as JavaScript's `!v` over the values a title can hold (undefined, null, false, 0 and `""` are falsy); the ensures state that among strings only `""` is falsy, and that `true`, arrays and objects are truthy |
| `TasksApi.IsString` | src/pages/api/tasks/index.ts:16 | `typeof title === "string"`; for a string, falsy means the empty string |
| `TasksApi.ValidTitle` | src/pages/api/tasks/index.ts:16 | a title is accepted exactly when it is neither falsy nor a non-string, that is, exactly when it is a non-empty string |
| `TasksApi.Dispatch` | src/pages/api/tasks/index.ts:4-31 | GET lists. POST with a non-empty string title creates a task with that title. POST with a missing, falsy or non-string title gets 400 with the title message. POST with a null body gets 500. Any other method gets 405 |
| `TasksApi.Handle` | src/pages/api/tasks/index.ts:4-31 | GET answers 200 with the stored list. A valid POST answers 201 with the new task and the store gains exactly that task. Every refusal leaves the store alone. A store exception answers 500 and leaves the store alone |
| `TasksApi.EmptyBodyRejected` | src/pages/api/tasks/index.ts:13-20 | a POST with `{}` is refused with 400 |
| `IndexPage.ReplaceById` | src/pages/index.tsx:57 | the merged list keeps its length; every task with the id is the server's copy and every other task is unchanged |
| `IndexPage.ReplaceAbsentId` | src/pages/index.tsx:57 | merging a task for an id not in the list changes nothing |
| `IndexPage.ToggleReconciles` | src/pages/index.tsx:56-57 | with unique ids, merging the task the store's toggle returns gives exactly the store's new list |
| `IndexPage.AddRequest` | src/pages/index.tsx:24-30 | the body `{title: text}` is accepted for creation exactly when the text is not empty, and refused with 400 otherwise |
| `IndexPage.Home.constructor` | src/pages/index.tsx:14-16 | the page starts with the initial tasks, idle and with no toasts |
| `IndexPage.Home.CompletedTasks` | src/pages/index.tsx:19 | the header's completed count is at most the number of tasks, and equals it exactly when all are completed |
| `IndexPage.Home.ShowErrorToast` | src/pages/index.tsx:84-90 | a toast with the message is added; the list and the busy flag are untouched |
| `IndexPage.Home.Begin` | src/pages/index.tsx:21-22 | before the await the busy flag is up and nothing else changes |
| `IndexPage.Home.CompleteAddTask` | src/pages/index.tsx:32-42 | on an ok response the server's task is appended; on failure the list is unchanged and the add message is toasted; busy is off either way |
| `IndexPage.Home.CompleteToggleTask` | src/pages/index.tsx:52-62 | on an ok response the server's task replaces every task with the id; on failure the list is unchanged and the update message is toasted; busy is off either way |
| `IndexPage.Home.CompleteDeleteTask` | src/pages/index.tsx:72-81 | on an ok response every task with the id is removed; on failure the list is unchanged and the delete message is toasted; busy is off either way |
| `IndexPage.AddThroughApi` | src/pages/index.tsx:21-43 | if page and store agree before an add of a non-empty text, they agree again afterwards, both gained `{task-<now>, text, false}`, and busy is off |
| `IndexPage.SubmitThroughApi` | src/pages/index.tsx:102 | a blank form never reaches the API; a submitted text is the trimmed field, the field is cleared, and page and store both gain that task |
| `HomeDemo.ToggleAll` | src/components/home.tsx:45-49 | the list keeps its length; every task with the id is flipped and every other task is unchanged |
| `HomeDemo.ToggleAllTwice` | src/components/home.tsx:45-49 | toggling the same id twice restores the list |
| `HomeDemo.ToggleAllAbsent` | src/components/home.tsx:46-47 | toggling an id not in the list changes nothing |
| `HomeDemo.ToggleAllMatchesStore` | src/components/home.tsx:45-49 | with unique ids the local toggle agrees with the store's first-match toggle |
| `HomeDemo.DuplicateIdsDiverge` | src/components/home.tsx:45-49 | with a repeated id the local toggle flips both tasks while the store flips only the first |
| `HomeDemo.LocalHome.constructor` | src/components/home.tsx:15-22 | the page starts idle with the five seeded tasks |
| `HomeDemo.LocalHome.CompletedTasks` | src/components/home.tsx:25 | the completed count is at most the number of tasks, and is 0 exactly when none is completed |
| `HomeDemo.LocalHome.Begin` | src/components/home.tsx:28 | before the timer the busy flag is up and the list is unchanged |
| `HomeDemo.LocalHome.CompleteAddTask` | src/components/home.tsx:30-38 | `{task-<now>, text, false}` is appended after the unchanged earlier tasks; busy is off |
| `HomeDemo.LocalHome.CompleteToggleTask` | src/components/home.tsx:44-51 | the list becomes the all-matches toggle of the old list; busy is off |
| `HomeDemo.LocalHome.CompleteDeleteTask` | src/components/home.tsx:57-65 | every task with the id is removed; busy is off |
| `TaskForm.IsWhitespace` | src/components/TaskForm.tsx:19 | the characters `trim` strips: ECMAScript WhiteSpace and LineTerminator; all lie in the Basic Multilingual Plane, and among ASCII they are exactly tab, line feed, vertical tab, form feed, carriage return and space |
| `TaskForm.LeadingWhitespace` | src/components/TaskForm.tsx:19 | the prefix counted is all whitespace and the next character is not whitespace |
| `TaskForm.TrailingStart` | src/components/TaskForm.tsx:19 | the suffix from the returned position is all whitespace and the character before it is not |
| `TaskForm.Trim` | src/components/TaskForm.tsx:19-20 | `trim` returns a slice of the text with only whitespace cut on either side; a non-empty result starts and ends with a non-whitespace character; it is empty exactly when the text is all whitespace |
| `TaskForm.TrimIdempotent` | src/components/TaskForm.tsx:20 | trimming a trimmed text changes nothing |
| `TaskForm.Form.constructor` | src/components/TaskForm.tsx:15 | the field starts empty |
| `TaskForm.Form.Change` | src/components/TaskForm.tsx:32 | typing sets the field to the input's value |
| `TaskForm.Form.HandleSubmit` | src/components/TaskForm.tsx:17-23 | an all-whitespace field submits nothing and is kept. Any other field hands over its trimmed text, which is non-empty with no whitespace at either end, and is cleared |
| `TaskForm.Form.ButtonDisabled` | src/components/TaskForm.tsx:39 | the button is disabled exactly when a request is in flight or the field is all whitespace |
| `TaskForm.Form.InputDisabled` | src/components/TaskForm.tsx:34 | a locked input implies a locked button; when the input is not locked, only a blank field locks the button |

## Left out

- `src/lib/db.ts` (the SQLite store) is not part of this model. Its results come from the database engine (`result.changes`, a primary-key clash on `INSERT`). The route's `raises` input stands in for its exceptions.
- `src/pages/api/tasks/[id].ts` (the PUT and DELETE routes) is not part of this model. The page's toggle and delete steps take the outcome of those calls as input.
- `src/api/tasks.ts` is left out. It only adds timer delays and re-throws around the SQLite store, and its `create` call does not match the store's signature.
- `getServerSideProps` and its dynamic import are left out. The page's constructor takes the initial tasks as input.
- Transport is left out: `fetch`, HTTP and JSON serialisation. A task is assumed to survive the JSON round trip unchanged. `Fetched.Failed` covers a non-2xx status, a thrown fetch and a failed `response.json()`.
- Async interleaving and stale closures are left out. The real handlers build the new list from the `tasks` captured at the render that created them. The model uses the current list, which is the same thing when the two steps of a handler run with nothing in between.
- Aliasing is not modelled, because tasks are values here. In the source, `getById` and `create` hand out the stored object itself, and `getAll`'s copy shares its objects. A later change made through such a reference would show up in the store.
- Toasts: only the description is recorded. The variant (`destructive`) and the title (`Error`) are the same every time.
- `HomeDemo.LocalHome.CompleteDeleteTask`: the catch branch of `handleDeleteTask` (src/components/home.tsx:61-64) is not modelled. Nothing in its try block can throw.
- JSON numbers are integers in `TasksApi.JsonValue`, because NaN, -0 and fractions only matter as falsy non-strings, and any non-string gets 400. An undefined `req.method` is treated like any other method that is not GET or POST.
- Character model of `TaskForm.IsWhitespace`: JavaScript strings are UTF-16 and Dafny characters are Unicode scalar values. Every character `trim` strips is in the Basic Multilingual Plane, so the two views agree.
- `Tasks.TaskId`: the clock reading is a `nat`. `Date.now()` is negative for a clock set before 1970, which would print ids like `task--5`; that case is not modelled.
- The `console.error` call in the route's catch branch (src/pages/api/tasks/index.ts:29) is left out, because it only logs.
- Rendering is left out: `TaskItem`, `TaskList`, `ErrorToast` and the toast system. `TaskHeader` is also left out, because its progress percentage uses floating-point division.
