# Task board column ids and task bookkeeping, in Dafny

This project models the core of a small React task board (`my-todo`):

- **Column ids** (`my-todo/src/utils/columnUtils.ts`): the transliterating slug
  `generateColumnId`, the test `isColumnIdUnique`, and the search
  `generateUniqueColumnId` for the first free `-2`, `-3`, … suffix.
- **The board** (`my-todo/src/components/TasksFetch/TasksFetch.tsx`):
  - the default columns and the columns loaded from storage;
  - the mapping of server todos to board tasks;
  - grouping the tasks by column;
  - the handlers that move, toggle, rename, delete and create tasks and add columns.
- **The new-task form** (`my-todo/src/components/CreateTaskForm/CreateTaskForm.tsx`):
  its state, the effect that clears a vanished column selection, and the submit
  handler with the button's `disabled` predicate.

Files:

- `maybe.dfy` holds the `Option` type.
- `js_text.dfy` (module `JsText`) models the JavaScript string primitives the code relies on:
  - `\s` and `\w`, `toLowerCase`, `trim`;
  - the two regular-expression replacements shared by both slug functions;
  - `String(n)`.
- `column_utils.dfy` (module `ColumnUtils`) models `columnUtils.ts`.
- `column_id_examples.dfy` (module `ColumnIdExamples`) proves the documented examples:
  - `"На проверке"` → `"na-proverke"`;
  - `"В работе"` → `"v-rabote"`;
  - `"Завершено"` → `"zaversheno"`;
  - `"Hello World"` → `"hello-world"`;
  - `"Bug's & Fix!!"` → `"bugs-fix"`;
  - `"  Много   пробелов  "` → `"mnogo-probelov"`;
  - `"Архив"` → `"arhiv"`;
  - `"Задачи"` against `["zadachi", "zadachi-2"]` → `"zadachi-3"`.
- `types.dfy` (module `Types`) holds the `Todo`, `Column` and `ApiTodo` records, in the shapes the board builds.
- `tasks_fetch.dfy` (module `TasksFetch`) holds the pure list transforms, their lemmas, and the class `TaskBoard`. The fields of `TaskBoard` are the component's state slots: `todos`, `columns`, `error`, `deletingTaskId` and `isLoadingTasks`.
- `create_task_form.dfy` (module `CreateTaskForm`) holds the class `TaskForm`.

Every network call becomes a parameter of the handler that makes it:

- the gateway's success flag for `updateTodo` and `deleteTodo`;
- the returned record, or `None` for a failure, for `createTodo` and the initial load.

Reading `localStorage` becomes a `SavedColumns` value: the stored text and what `JSON.parse` produced from it.

The board's `addNewColumn` uses the component's local `generateColumnId` (`TasksFetch.tsx:171-176`), not the transliterating one from `columnUtils.ts`. It lower-cases the title, turns whitespace runs into `-` and deletes every other non-`[A-Za-z0-9_-]` character. So an all-Cyrillic title gets the empty id:

- `LocalColumnIdZaversheno` proves this for `"Завершено"`.
- `RussianTitlesCollide` shows that two different Russian titles then collide: the second one is refused as a duplicate.

The model follows the code as written. In particular:

- `toggleTask` only moves the task locally and calls no gateway, so it has no rollback and sets no error.
- A failed rename writes the old title back and leaves the error slot alone.
- Only one task at a time is marked as being deleted: `deletingTaskId` is a single value.

## Model

| member | source | states |
|---|---|---|
| JsText.LowerCase | my-todo/src/utils/columnUtils.ts:54 | `toLowerCase` keeps the length, leaves no ASCII capital, and returns a string without capitals unchanged |
| JsText.Trim | my-todo/src/components/TasksFetch/TasksFetch.tsx:215-216 | `trim` gives the empty string exactly for blank input; otherwise the result neither starts nor ends with whitespace and is the inner run of the input between two blank edges |
| JsText.DashSpaces | my-todo/src/utils/columnUtils.ts:58 | `replace(/\s+/g, "-")`; its properties are stated by `DashSpacesFacts`, `DashSpacesRun`, `DashSpacesUnchanged` and `DashSpacesAppend` |
| JsText.DashSpacesFacts | my-todo/src/utils/columnUtils.ts:58 | after `replace(/\s+/g, "-")` no whitespace remains and no capital is introduced |
| JsText.DashSpacesUnchanged | my-todo/src/utils/columnUtils.ts:58 | the whitespace replacement leaves a string without whitespace unchanged |
| JsText.DashSpacesRun | my-todo/src/utils/columnUtils.ts:58 | a whitespace run of any length becomes exactly one dash |
| JsText.DashSpacesAppend | my-todo/src/utils/columnUtils.ts:58 | the whitespace replacement distributes over a concatenation whose seam is not inside a whitespace run |
| JsText.StripNonWord | my-todo/src/utils/columnUtils.ts:59 | `replace(/[^\w\-]/g, "")`; its properties are stated by `StripNonWordFacts`, `StripNonWordUnchanged`, `StripNonWordDropsAll` and `StripNonWordAppend` |
| JsText.StripNonWordFacts | my-todo/src/utils/columnUtils.ts:59 | after `replace(/[^\w\-]/g, "")` only `[A-Za-z0-9_-]` remains and no capital is introduced |
| JsText.StripNonWordUnchanged | my-todo/src/utils/columnUtils.ts:59 | the removal leaves a string of `[A-Za-z0-9_-]` unchanged |
| JsText.StripNonWordDropsAll | my-todo/src/components/TasksFetch/TasksFetch.tsx:175 | a string with no `[A-Za-z0-9_-]` character is removed entirely |
| JsText.StripNonWordAppend | my-todo/src/utils/columnUtils.ts:59 | the removal distributes over concatenation, so it keeps the order of what survives |
| JsText.NatToDecimal | my-todo/src/utils/columnUtils.ts:103 | the counter printed into a candidate is a non-empty run of digits with no leading zero |
| JsText.DecimalRoundTrip | my-todo/src/utils/columnUtils.ts:103 | reading back the printed counter gives the counter |
| JsText.DecimalInjective | my-todo/src/utils/columnUtils.ts:107 | distinct counters print differently |
| JsText.IntToString | my-todo/src/components/TasksFetch/TasksFetch.tsx:75 | `String(n)` for an integer: a minus sign for negatives, then the decimal numeral; `IntToStringInjective` states that it keeps ids apart |
| JsText.IntToStringInjective | my-todo/src/components/TasksFetch/TasksFetch.tsx:75 | `String(id)` is injective on integers, so stringified task ids keep their identity |
| ColumnUtils.TranslitEntry | my-todo/src/utils/columnUtils.ts:4-38 | `translitMap[c]`; its keys and values are stated by `TranslitTable` |
| ColumnUtils.TranslitChar | my-todo/src/utils/columnUtils.ts:56 | `translitMap[char] or char`: a falsy entry, missing or empty, keeps the character; `LetterColumnId` and `TransliterateUnchanged` state the consequences |
| ColumnUtils.Transliterate | my-todo/src/utils/columnUtils.ts:55-57 | the split/map/join over the characters; its properties are stated by `TransliterateFacts`, `TransliterateUnchanged` and `TransliterateAppend` |
| ColumnUtils.TranslitTable | my-todo/src/utils/columnUtils.ts:4-38 | the keys of `translitMap` are exactly the 33 lower-case Russian letters; only `ъ` and `ь` map to the empty string; every other value is a non-empty lower-case Latin word |
| ColumnUtils.TransliterateFacts | my-todo/src/utils/columnUtils.ts:55-57 | transliteration introduces no capital |
| ColumnUtils.TransliterateUnchanged | my-todo/src/utils/columnUtils.ts:56 | a string without Russian lower-case letters is left unchanged (a missing key falls back to the character) |
| ColumnUtils.TransliterateAppend | my-todo/src/utils/columnUtils.ts:55-57 | the split/map/join transliterates character by character, so it distributes over concatenation |
| ColumnUtils.SquashDashes | my-todo/src/utils/columnUtils.ts:60 | `replace(/\-+/g, "-")`; its properties are stated by `SquashDashesFacts`, `SquashDashesRun`, `SquashDashesUnchanged` and `SquashDashesAppend` |
| ColumnUtils.SquashDashesFacts | my-todo/src/utils/columnUtils.ts:60 | after `replace(/\-+/g, "-")` there is no `--`; the first character and the slug alphabet are kept |
| ColumnUtils.SquashDashesUnchanged | my-todo/src/utils/columnUtils.ts:60 | the dash squashing leaves a string without `--` unchanged |
| ColumnUtils.SquashDashesRun | my-todo/src/utils/columnUtils.ts:60 | a run of dashes of any length becomes exactly one dash |
| ColumnUtils.SquashDashesAppend | my-todo/src/utils/columnUtils.ts:60 | the dash squashing distributes over a concatenation whose seam is not inside a dash run |
| ColumnUtils.TrimDashes | my-todo/src/utils/columnUtils.ts:61 | removing one leading and one trailing dash turns a `--`-free slug-alphabet string into a slug, and leaves a slug unchanged |
| ColumnUtils.GenerateColumnId | my-todo/src/utils/columnUtils.ts:52-62 | the six-stage pipeline of `generateColumnId`; `GenerateColumnIdIsSlug`, `GenerateColumnIdIdempotent`, `SlugIsOwnColumnId`, `LetterColumnId` and the examples state what it yields |
| ColumnUtils.GenerateColumnIdIsSlug | my-todo/src/utils/columnUtils.ts:52-62 | every generated id uses only `a-z0-9_-`, has no `--`, and has no dash at either end |
| ColumnUtils.SlugIsOwnColumnId | my-todo/src/utils/columnUtils.ts:52-62 | a string already in slug shape is its own id |
| ColumnUtils.GenerateColumnIdIdempotent | my-todo/src/utils/columnUtils.ts:52-62 | generating an id from a generated id changes nothing |
| ColumnUtils.SlugSurvivesCleanup | my-todo/src/utils/columnUtils.ts:59-61 | the three clean-up replacements leave a slug unchanged |
| ColumnUtils.LetterColumnId | my-todo/src/utils/columnUtils.ts:52-62 | a one-letter Russian title, in either case, gets that letter's Latin string from the table; `ъ` and `ь` give the empty id |
| ColumnUtils.IsColumnIdUnique | my-todo/src/utils/columnUtils.ts:71-76 | an id is unique exactly when no existing id equals it |
| ColumnUtils.Suffixed | my-todo/src/utils/columnUtils.ts:103-107 | the candidate `${baseId}-${counter}`; `SuffixedInjective` states that candidates are distinct from each other and from the base |
| ColumnUtils.SuffixedInjective | my-todo/src/utils/columnUtils.ts:103-107 | no candidate `${baseId}-${counter}` equals the base, and distinct counters give distinct candidates |
| ColumnUtils.TakenBound | my-todo/src/utils/columnUtils.ts:105-108 | if the base and the candidates up to `k` are all taken, there are at least `k` existing ids, so the search stops once `k` is one more than the number of existing ids |
| ColumnUtils.IsFirstFreeId | my-todo/src/utils/columnUtils.ts:90-111 | what the search returns: a free id, the base itself when free, otherwise the least free `base-k` with `k >= 2`; `GenerateUniqueColumnId` ensures it |
| ColumnUtils.GenerateUniqueColumnId | my-todo/src/utils/columnUtils.ts:90-111 | the result is not among the existing ids. It is the base id when that is free; otherwise it is `base-k` for the least `k >= 2` whose candidate is free, where `k` is at most one more than the number of existing ids |
| ColumnIdExamples.SpaceRuns | my-todo/src/utils/columnUtils.ts:58 | a run of one, two or three spaces becomes one dash |
| ColumnIdExamples.ExampleNaProverke | my-todo/src/utils/columnUtils.example.ts:20 | `generateColumnId("На проверке") == "na-proverke"` |
| ColumnIdExamples.ExampleVRabote | my-todo/src/utils/columnUtils.example.ts:21 | `generateColumnId("В работе") == "v-rabote"` |
| ColumnIdExamples.ExampleZaversheno | my-todo/src/utils/columnUtils.example.ts:22 | `generateColumnId("Завершено") == "zaversheno"` |
| ColumnIdExamples.ExampleHelloWorld | my-todo/src/utils/columnUtils.ts:47 | `generateColumnId("Hello World") == "hello-world"` |
| ColumnIdExamples.ExampleBugsFix | my-todo/src/utils/columnUtils.example.ts:31 | `generateColumnId("Bug's & Fix!!") == "bugs-fix"` |
| ColumnIdExamples.ExampleMnogoProbelov | my-todo/src/utils/columnUtils.example.ts:32 | `generateColumnId("  Много   пробелов  ") == "mnogo-probelov"` |
| ColumnIdExamples.ExampleArhiv | my-todo/src/utils/columnUtils.example.ts:119 | `generateColumnId("Архив") == "arhiv"` |
| ColumnIdExamples.ExampleZadachi | my-todo/src/utils/columnUtils.example.ts:56 | `generateColumnId("Задачи") == "zadachi"` |
| ColumnIdExamples.ExampleIsColumnIdUnique | my-todo/src/utils/columnUtils.example.ts:40-43 | against `["progress", "review", "completed"]`, `"progress"` is not unique and `"blocked"` is |
| ColumnIdExamples.ArhivIsFree | my-todo/src/utils/columnUtils.example.ts:52 | the first free id for base `"arhiv"` among `["progress", "review", "completed"]` is `"arhiv"` |
| ColumnIdExamples.ZadachiThirdIsFirstFree | my-todo/src/utils/columnUtils.example.ts:55-56 | the first free id for base `"zadachi"` among `["zadachi", "zadachi-2"]` is `"zadachi-3"` |
| ColumnIdExamples.ExampleUniqueArhiv | my-todo/src/utils/columnUtils.example.ts:52 | `generateUniqueColumnId("Архив", ["progress", "review", "completed"])` returns `"arhiv"` |
| ColumnIdExamples.ExampleUniqueZadachi | my-todo/src/utils/columnUtils.example.ts:55-56 | `generateUniqueColumnId("Задачи", ["zadachi", "zadachi-2"])` returns `"zadachi-3"` |
| TasksFetch.InitialColumns | my-todo/src/components/TasksFetch/TasksFetch.tsx:41-51 | the initial columns are either the defaults or exactly the list that was parsed from storage, and a non-empty saved text that parses always yields that parsed list; `InitialColumnsFallback` gives the converse, that every other case yields the defaults |
| TasksFetch.InitialColumnsFallback | my-todo/src/components/TasksFetch/TasksFetch.tsx:41-51 | with nothing saved, an empty saved text or unparseable text, the columns are the defaults: `progress` at order 0 and `completed` at order 1, with contiguous orders and distinct ids |
| TasksFetch.LocalColumnId | my-todo/src/components/TasksFetch/TasksFetch.tsx:171-176 | the component's own slug, without transliteration; its properties are stated by `LocalColumnIdAlphabet`, `LocalColumnIdIdempotent`, `LocalColumnIdEmpty` and `RussianTitlesCollide` |
| TasksFetch.LocalColumnIdAlphabet | my-todo/src/components/TasksFetch/TasksFetch.tsx:171-176 | the local column id uses only `[a-z0-9_-]` |
| TasksFetch.LocalColumnIdIdempotent | my-todo/src/components/TasksFetch/TasksFetch.tsx:171-176 | the local id of a local id is itself |
| TasksFetch.LocalColumnIdEmpty | my-todo/src/components/TasksFetch/TasksFetch.tsx:171-176 | a title none of whose lower-cased characters is `[a-z0-9_-]` or whitespace, such as any Cyrillic-only title, has the empty local id |
| TasksFetch.LocalColumnIdZaversheno | my-todo/src/components/TasksFetch/TasksFetch.tsx:171-176 | the default title `"Завершено"` has the empty local id |
| TasksFetch.RussianTitlesCollide | my-todo/src/components/TasksFetch/TasksFetch.tsx:180-184 | `"Архив"` and `"Задачи"` share the empty local id, so after the first is added the second is refused as a duplicate |
| TasksFetch.NewColumnKeepsShape | my-todo/src/components/TasksFetch/TasksFetch.tsx:187-193 | appending a column whose id is new, at order `columns.length`, keeps the orders contiguous and the ids distinct, and adds exactly that id |
| TasksFetch.ToAppTask | my-todo/src/components/TasksFetch/TasksFetch.tsx:271-275 | the server record with its id stringified and the requested column; `LoadedTodos` and `HandleCreateTask` state its use |
| TasksFetch.FromApi | my-todo/src/components/TasksFetch/TasksFetch.tsx:73-78 | a loaded task is always in `completed` or `progress`, and in `completed` exactly when it is completed |
| TasksFetch.ToAppTodos | my-todo/src/components/TasksFetch/TasksFetch.tsx:73-78 | the mapping over the server list; `LoadedTodos` and `LoadedIdsUnique` state its properties |
| TasksFetch.LoadedTodos | my-todo/src/components/TasksFetch/TasksFetch.tsx:73-78 | the loaded list has the server's order and fields with stringified ids; a task is in `completed` exactly when it is completed; every task is in a default column |
| TasksFetch.LoadedIdsUnique | my-todo/src/components/TasksFetch/TasksFetch.tsx:73-78 | distinct server ids give distinct task ids |
| TasksFetch.TasksIn | my-todo/src/components/TasksFetch/TasksFetch.tsx:97-101 | a column's bucket holds exactly the tasks whose `columnId` is that column's id, and is no longer than the list |
| TasksFetch.TasksInAppend | my-todo/src/components/TasksFetch/TasksFetch.tsx:97-101 | buckets keep list order: the bucket of a concatenation is the concatenation of the buckets |
| TasksFetch.UnplacedTaskHidden | my-todo/src/components/TasksFetch/TasksFetch.tsx:98-100 | a task whose `columnId` names no column is in no bucket |
| TasksFetch.FindTask | my-todo/src/components/TasksFetch/TasksFetch.tsx:135-136 | `find` returns nothing exactly when no task has the id, and otherwise the first task with it |
| TasksFetch.SetColumnOf | my-todo/src/components/TasksFetch/TasksFetch.tsx:138-140 | the map shared by moving and toggling; its effect on each task is stated by `MoveTask` |
| TasksFetch.MoveTask | my-todo/src/components/TasksFetch/TasksFetch.tsx:132-144 | an unknown id leaves the list unchanged. Otherwise every task with the id gets the target column (which is not checked against the columns) and every other field and task is unchanged |
| TasksFetch.Toggled | my-todo/src/components/TasksFetch/TasksFetch.tsx:146-160 | an unknown id leaves the list unchanged. Otherwise the result is the move of that id to `progress` when the first task with the id is in `completed`, and to `completed` in every other case |
| TasksFetch.ToggleTwice | my-todo/src/components/TasksFetch/TasksFetch.tsx:151-154 | for a task whose id is not shared, toggling twice restores the list exactly when the task started in `progress` or `completed` |
| TasksFetch.SetTitleOf | my-todo/src/components/TasksFetch/TasksFetch.tsx:221-236 | the title map shared by the optimistic write and the rollback; `RenameEach` and `RenameRollback` state its use |
| TasksFetch.LastTitle | my-todo/src/components/TasksFetch/TasksFetch.tsx:218-227 | `previousTitle` ends as nothing exactly when no task has the id, and otherwise as the title of the last task with it |
| TasksFetch.RenameEach | my-todo/src/components/TasksFetch/TasksFetch.tsx:218-228 | the optimistic map gives every task with the id the new title, and leaves `previousTitle` as the last such task's old title |
| TasksFetch.RenameRollback | my-todo/src/components/TasksFetch/TasksFetch.tsx:230-240 | for an id held by at most one task, writing the captured title back after the optimistic rename restores the list exactly; with no such task the rename changes nothing |
| TasksFetch.RemoveTask | my-todo/src/components/TasksFetch/TasksFetch.tsx:252-254 | the filter keeps exactly the tasks with another id, leaves none with the id, and changes nothing when the id is absent |
| TasksFetch.RemoveTaskAppend | my-todo/src/components/TasksFetch/TasksFetch.tsx:252-254 | the filter keeps the order of the remaining tasks |
| TasksFetch.TaskBoard.constructor | my-todo/src/components/TasksFetch/TasksFetch.tsx:37-60 | the first render has no tasks, no error and no deletion in flight; it is loading, with the columns from storage |
| TasksFetch.TaskBoard.ReceiveInitialLoad | my-todo/src/components/TasksFetch/TasksFetch.tsx:70-85 | a successful load replaces the tasks with the mapped server list; a failure sets the load error and keeps the tasks; loading ends either way |
| TasksFetch.TaskBoard.TasksByColumn | my-todo/src/components/TasksFetch/TasksFetch.tsx:87-104 | the grouping has exactly one key per column id, and each key maps to that column's bucket in list order |
| TasksFetch.TaskBoard.MoveTaskToColumn | my-todo/src/components/TasksFetch/TasksFetch.tsx:132-144 | the tasks become the move of the old tasks, and nothing else changes |
| TasksFetch.TaskBoard.ToggleTask | my-todo/src/components/TasksFetch/TasksFetch.tsx:146-160 | the tasks become the toggle of the old tasks, and nothing else changes, the error slot included |
| TasksFetch.TaskBoard.AddNewColumn | my-todo/src/components/TasksFetch/TasksFetch.tsx:178-196 | a taken local id sets the duplicate-column error and adds nothing; otherwise the column is appended at order `columns.length`. Contiguous orders and distinct ids are kept either way |
| TasksFetch.TaskBoard.UpdateTaskTitle | my-todo/src/components/TasksFetch/TasksFetch.tsx:213-243 | a blank title changes nothing. A success leaves the trimmed title on every task with the id. A failure writes the captured title back to those tasks, which with one such task restores the list. The error slot is never set |
| TasksFetch.TaskBoard.StartDelete | my-todo/src/components/TasksFetch/TasksFetch.tsx:245-247 | the task is marked as being deleted and nothing else changes |
| TasksFetch.TaskBoard.FinishDelete | my-todo/src/components/TasksFetch/TasksFetch.tsx:248-260 | a success removes every task with the id; a failure sets the delete error and keeps the tasks; the mark is cleared either way |
| TasksFetch.TaskBoard.DeleteTask | my-todo/src/components/TasksFetch/TasksFetch.tsx:245-261 | the whole delete: tasks filtered or the delete error set, and no deletion marked afterwards |
| TasksFetch.TaskBoard.HandleCreateTask | my-todo/src/components/TasksFetch/TasksFetch.tsx:263-282 | a created record goes first in the list, with its id stringified and the requested column; a failure sets the create error and keeps the tasks |
| CreateTaskForm.SubmitBlocked | my-todo/src/components/CreateTaskForm/CreateTaskForm.tsx:30 | the guard `!title.trim() or !columnId or !userId`, written once and used by both the handler and the button; `SubmissionMatchesButton` states its meaning |
| CreateTaskForm.Submission | my-todo/src/components/CreateTaskForm/CreateTaskForm.tsx:30-32 | what a submit sends; `SubmissionMatchesButton` states when it sends and what |
| CreateTaskForm.SubmissionMatchesButton | my-todo/src/components/CreateTaskForm/CreateTaskForm.tsx:29-38 | a submit sends something exactly when the button is enabled (line 87 uses the guard's expression). That happens when the title is not blank and a column and a user are selected. What is sent is the trimmed title, which is non-blank with no edge whitespace, with the selected user and column |
| CreateTaskForm.SyncedColumn | my-todo/src/components/CreateTaskForm/CreateTaskForm.tsx:22-26 | after the effect the selection is empty or an existing column's id; a valid or empty selection is kept, and anything else is cleared |
| CreateTaskForm.TaskForm.SubmitDisabled | my-todo/src/components/CreateTaskForm/CreateTaskForm.tsx:87 | the button's `disabled` flag, the guard applied to the form's fields; `HandleSubmit` sends nothing exactly when it holds |
| CreateTaskForm.TaskForm.constructor | my-todo/src/components/CreateTaskForm/CreateTaskForm.tsx:18-20 | the form starts with an empty title, column and user |
| CreateTaskForm.TaskForm.SetTitle | my-todo/src/components/CreateTaskForm/CreateTaskForm.tsx:45 | typing replaces the title only |
| CreateTaskForm.TaskForm.SelectColumn | my-todo/src/components/CreateTaskForm/CreateTaskForm.tsx:53 | choosing a column replaces the column selection only |
| CreateTaskForm.TaskForm.SelectUser | my-todo/src/components/CreateTaskForm/CreateTaskForm.tsx:70 | choosing a user replaces the user selection only |
| CreateTaskForm.TaskForm.SyncColumnSelection | my-todo/src/components/CreateTaskForm/CreateTaskForm.tsx:22-26 | the effect clears a selection that names no column and touches nothing else |
| CreateTaskForm.TaskForm.HandleSubmit | my-todo/src/components/CreateTaskForm/CreateTaskForm.tsx:29-38 | a disabled form sends nothing and keeps its state; an enabled one sends its submission and clears all three fields |

## Left out

- The network: `fetchTodos`, `fetchUsers`, `updateTodo`, `deleteTodo` and `createTodo` are not modelled. Their outcomes are parameters of the handlers: a success flag, or the returned record, or `None` for a failure.
- Local storage and JSON:
  - `localStorage.getItem` and `JSON.parse` are replaced by the `SavedColumns` parameter.
  - The effect that writes the columns back (`TasksFetch.tsx:209-211`) is not modelled, because it is storage output.
  - A parse that yields something other than a column array is not modelled.
- Asynchrony: each handler runs as one atomic step. Between an optimistic write and the gateway's answer the source lets other updates land; the model does not.
  - TasksFetch.TaskBoard.UpdateTaskTitle: the rollback is applied to the list as the optimistic map left it.
  - TasksFetch.TaskBoard.DeleteTask: it is one step. `StartDelete` and `FinishDelete` model its two halves separately.
- The `users` list, the colour toggle and the creating flags: these are display state, and they are not modelled.
  - `fetchUsers`'s result is folded into the load's success or failure.
- Rendering: the column dialog and the task list are not modelled.
- `moveTaskToColumn` is never called by the board. It is modelled for its own sake.
- TasksFetch.TaskBoard.AddNewColumn: the column dialog trims the title before calling `addNewColumn` (`TasksFetch.tsx:341-342`). `AddNewColumn` takes the title as given.
- JsText.LowerCase: only Basic Latin, Latin-1 and the Cyrillic block U+0400..U+042F are lower-cased. Full Unicode case mapping, such as `İ` becoming two characters, is not modelled.
- TasksFetch.TaskBoard.TasksByColumn: a column id or a task's `columnId` that names a property of `Object.prototype`, such as `constructor` or `toString`, is treated like any other key. In the source, a task whose `columnId` is such a name and no column's id finds a function in `grouped`; the truthiness test passes and the `push` throws. `UnplacedTaskHidden` instead puts such a task in no bucket.
- JsText.IntToString: ids are modelled as unbounded integers. JavaScript numbers are doubles, so ids above 2^53 lose precision and `String(n)` prints exponent notation from 1e21 on. `ApiTodo.id` and `IntToString` capture neither.
- TasksFetch.TaskBoard.HandleCreateTask: the handler passes `userId` as `createTodo`'s `completed` argument (`api/todos.ts:21-25`). What the server makes of that is out of scope, so the returned record is a parameter taken as it is.
- `deletingTaskId` is declared `number | null` but is given the string id. The model stores the string.
- `generateUniqueColumnId` is not called by the board. It is modelled for its own sake.
- The remaining documented examples of `generateColumnId` (`"Новые задачи"`, `"To Do"`, `"In Progress"`, `"Done"`, `"Тестирование"`) are not proved. They follow the same pipeline as the proved ones.
