/**
 * The task board of my-todo/src/components/TasksFetch/TasksFetch.tsx: the
 * transforms each handler applies to the task list and the column list, and
 * the board itself as a class whose fields are the component's state slots.
 * Every gateway call is a parameter: a success flag, or the record the server
 * returned.
 */
module TasksFetch {
  import opened Maybe
  import opened JsText
  import opened Types

  const CompletedColumnId: string := "completed"
  const ProgressColumnId: string := "progress"

  /** `DEFAULT_COLUMNS`. */
  const DefaultColumns: seq<Column> := [Column("progress", "В работе", 0), Column("completed", "Завершено", 1)]

  const LoadError: string := "Ошибка в получении контента"
  const DuplicateColumnError: string := "Колонка с таким названием уже есть"
  const DeleteError: string := "Ошибка при удалении задачи"
  const CreateError: string := "Ошибка при создании задачи"

  // ---------------------------------------------------------------------------
  // Columns

  /** What `localStorage.getItem("columns")` held, and what `JSON.parse` made of
      it (`None` when it throws). */
  datatype SavedColumns = NotSaved | Saved(text: string, parsed: Option<seq<Column>>)

  predicate OrdersContiguous(columns: seq<Column>) {
    forall i :: 0 <= i < |columns| ==> columns[i].order == i
  }

  predicate UniqueColumnIds(columns: seq<Column>) {
    forall i, j :: 0 <= i < j < |columns| ==> columns[i].id != columns[j].id
  }

  function ColumnIds(columns: seq<Column>): set<string> {
    set c | c in columns :: c.id
  }

  /** `columns.some(col => col.id === id)`. */
  predicate HasColumn(columns: seq<Column>, id: string) {
    exists i :: 0 <= i < |columns| && columns[i].id == id
  }

  /** The initial column list: the parsed saved list when there is a non-empty
      saved text that parses, and `DEFAULT_COLUMNS` otherwise. */
  function InitialColumns(saved: SavedColumns): (columns: seq<Column>)
    ensures columns == DefaultColumns || (saved.Saved? && saved.parsed == Some(columns))
    ensures saved.Saved? && saved.text != [] && saved.parsed.Some? ==> columns == saved.parsed.value
  {
    match saved
    case NotSaved => DefaultColumns
    case Saved(text, parsed) =>
      if text == [] then DefaultColumns
      else match parsed
        case None => DefaultColumns
        case Some(columns) => columns
  }

  /** A board that starts from nothing saved, from an empty saved text or from
      text that does not parse gets the two default columns, `progress` at order
      0 and `completed` at order 1. */
  lemma InitialColumnsFallback(saved: SavedColumns)
    requires saved.NotSaved? || saved.text == [] || saved.parsed.None?
    ensures InitialColumns(saved) == DefaultColumns
    ensures OrdersContiguous(InitialColumns(saved)) && UniqueColumnIds(InitialColumns(saved))
    ensures ColumnIds(InitialColumns(saved)) == {ProgressColumnId, CompletedColumnId}
  {
    assert DefaultColumns[0] in DefaultColumns && DefaultColumns[1] in DefaultColumns;
  }

  /** The local `generateColumnId` of the component: lower-case, whitespace runs to
      `-`, and everything outside `[A-Za-z0-9_-]` removed. There is no
      transliteration, so Cyrillic letters are removed too. */
  function LocalColumnId(title: string): string {
    StripNonWord(DashSpaces(LowerCase(title)))
  }

  /** The local id is made of `[a-z0-9_-]` only. */
  lemma LocalColumnIdAlphabet(title: string)
    ensures AllWordOrDash(LocalColumnId(title)) && NoAsciiUpper(LocalColumnId(title))
  {
    DashSpacesFacts(LowerCase(title));
    StripNonWordFacts(DashSpaces(LowerCase(title)));
  }

  /** The local id of a local id is itself. */
  lemma LocalColumnIdIdempotent(title: string)
    ensures LocalColumnId(LocalColumnId(title)) == LocalColumnId(title)
  {
    var id := LocalColumnId(title);
    LocalColumnIdAlphabet(title);
    assert LowerCase(id) == id;
    assert NoJsSpace(id);
    DashSpacesUnchanged(id);
    StripNonWordUnchanged(id);
  }

  /** A title with no character that survives as `[a-z0-9_-]` or whitespace, such
      as any all-Cyrillic title, has the empty local id. */
  lemma LocalColumnIdEmpty(title: string)
    requires forall i :: 0 <= i < |title| ==> var c := LowerChar(title[i]);
               !IsWordChar(c) && c != '-' && !IsJsSpace(c)
    ensures LocalColumnId(title) == []
  {
    var lowered := LowerCase(title);
    assert NoJsSpace(lowered);
    DashSpacesUnchanged(lowered);
    StripNonWordDropsAll(lowered);
  }

  /** `"Завершено"`, the title of a default column, has the empty local id. */
  lemma LocalColumnIdZaversheno()
    ensures LocalColumnId("Завершено") == []
  {
    LocalColumnIdEmpty("Завершено");
  }

  /** Since Cyrillic letters are dropped rather than transliterated, distinct
      Russian titles share the empty local id: once `"Архив"` is a column,
      `"Задачи"` is refused as a duplicate. */
  lemma RussianTitlesCollide(columns: seq<Column>)
    requires HasColumn(columns, LocalColumnId("Архив"))
    ensures LocalColumnId("Архив") == LocalColumnId("Задачи") == []
    ensures HasColumn(columns, LocalColumnId("Задачи"))
  {
    LocalColumnIdArhiv();
    LocalColumnIdZadachi();
  }

  lemma LocalColumnIdArhiv()
    ensures LocalColumnId("Архив") == []
  {
    LocalColumnIdEmpty("Архив");
  }

  lemma LocalColumnIdZadachi()
    ensures LocalColumnId("Задачи") == []
  {
    LocalColumnIdEmpty("Задачи");
  }

  /** The column `addNewColumn` appends: the local id, the title as given, and the
      next order. It keeps the orders contiguous and, since the id is new, the
      ids unique. */
  lemma NewColumnKeepsShape(columns: seq<Column>, title: string)
    requires !HasColumn(columns, LocalColumnId(title))
    ensures var next := columns + [Column(LocalColumnId(title), title, |columns|)];
            (OrdersContiguous(columns) ==> OrdersContiguous(next))
            && (UniqueColumnIds(columns) ==> UniqueColumnIds(next))
            && ColumnIds(next) == ColumnIds(columns) + {LocalColumnId(title)}
  {
    var next := columns + [Column(LocalColumnId(title), title, |columns|)];
    assert forall c :: c in next <==> c in columns || c == next[|columns|];
  }

  // ---------------------------------------------------------------------------
  // Tasks

  predicate UniqueTaskIds(todos: seq<Todo>) {
    forall i, j :: 0 <= i < j < |todos| ==> todos[i].id != todos[j].id
  }

  predicate HasTask(todos: seq<Todo>, id: string) {
    exists i :: 0 <= i < |todos| && todos[i].id == id
  }

  /** `{ ...serverTask, id: String(serverTask.id), columnId }`. */
  function ToAppTask(a: ApiTodo, columnId: string): Todo {
    Todo(IntToString(a.id), a.title, a.completed, a.userId, columnId)
  }

  /** The initial load's mapping: completed tasks go to `completed`, the others to
      `progress`. */
  function FromApi(a: ApiTodo): (t: Todo)
    ensures t.columnId in {CompletedColumnId, ProgressColumnId}
    ensures t.columnId == CompletedColumnId <==> a.completed
  {
    ToAppTask(a, if a.completed then CompletedColumnId else ProgressColumnId)
  }

  function ToAppTodos(apiTodos: seq<ApiTodo>): seq<Todo> {
    seq(|apiTodos|, i requires 0 <= i < |apiTodos| => FromApi(apiTodos[i]))
  }

  /** The loaded list keeps the server's order and fields, stringifies each id, and
      puts each task in one of the two default columns according to `completed`. */
  lemma LoadedTodos(apiTodos: seq<ApiTodo>)
    ensures |ToAppTodos(apiTodos)| == |apiTodos|
    ensures forall i :: 0 <= i < |apiTodos| ==>
              var t := ToAppTodos(apiTodos)[i];
              && t.id == IntToString(apiTodos[i].id)
              && t.title == apiTodos[i].title && t.completed == apiTodos[i].completed
              && t.userId == apiTodos[i].userId
              && (t.columnId == CompletedColumnId <==> apiTodos[i].completed)
              && t.columnId in ColumnIds(DefaultColumns)
  {
    assert DefaultColumns[0] in DefaultColumns && DefaultColumns[1] in DefaultColumns;
  }

  /** Distinct server ids stay distinct once stringified. */
  lemma LoadedIdsUnique(apiTodos: seq<ApiTodo>)
    requires forall i, j :: 0 <= i < j < |apiTodos| ==> apiTodos[i].id != apiTodos[j].id
    ensures UniqueTaskIds(ToAppTodos(apiTodos))
  {
    var todos := ToAppTodos(apiTodos);
    forall i, j | 0 <= i < j < |todos| ensures todos[i].id != todos[j].id {
      if todos[i].id == todos[j].id {
        IntToStringInjective(apiTodos[i].id, apiTodos[j].id);
      }
    }
  }

  /** The bucket of one column: the tasks whose `columnId` is that column's id, in
      their order in `todos`. */
  function TasksIn(todos: seq<Todo>, columnId: string): (bucket: seq<Todo>)
    ensures |bucket| <= |todos|
    ensures forall t :: t in bucket <==> t in todos && t.columnId == columnId
  {
    if todos == [] then []
    else
      var last := todos[|todos| - 1];
      assert todos == todos[..|todos| - 1] + [last];
      TasksIn(todos[..|todos| - 1], columnId) + (if last.columnId == columnId then [last] else [])
  }

  /** Buckets keep the order of `todos`: the bucket of a concatenation is the
      concatenation of the buckets. */
  lemma {:induction false} TasksInAppend(a: seq<Todo>, b: seq<Todo>, columnId: string)
    ensures TasksIn(a + b, columnId) == TasksIn(a, columnId) + TasksIn(b, columnId)
  {
    if b == [] {
      assert a + b == a;
    } else {
      var b' := b[..|b| - 1];
      assert (a + b)[..|a + b| - 1] == a + b';
      TasksInAppend(a, b', columnId);
    }
  }

  /** A task whose `columnId` is not a column's id is in no bucket. */
  lemma UnplacedTaskHidden(todos: seq<Todo>, columns: seq<Column>, t: Todo)
    requires t.columnId !in ColumnIds(columns)
    ensures forall id :: id in ColumnIds(columns) ==> t !in TasksIn(todos, id)
  {
  }

  /** `currentTodos.find(t => t.id === taskId)`: the first task with that id. */
  function FindTask(todos: seq<Todo>, id: string): (found: Option<Todo>)
    ensures found.None? <==> !HasTask(todos, id)
    ensures found.Some? ==> exists i :: 0 <= i < |todos| && todos[i] == found.value && todos[i].id == id
                                        && forall j :: 0 <= j < i ==> todos[j].id != id
  {
    if todos == [] then None
    else if todos[0].id == id then Some(todos[0])
    else
      var rest := FindTask(todos[1..], id);
      assert HasTask(todos, id) ==> HasTask(todos[1..], id);
      assert rest.Some? ==> exists i :: 0 < i < |todos| && todos[i] == rest.value && todos[i].id == id
                                        && forall j :: 0 <= j < i ==> todos[j].id != id;
      rest
  }

  /** The map both column handlers apply: every task with the id gets the column. */
  function SetColumnOf(todos: seq<Todo>, id: string, columnId: string): seq<Todo> {
    seq(|todos|, i requires 0 <= i < |todos| => if todos[i].id == id then todos[i].(columnId := columnId) else todos[i])
  }

  /** `moveTaskToColumn`: an unknown id changes nothing; otherwise every task with
      the id moves to the target, which is not checked against the columns, and
      nothing else changes. */
  function MoveTask(todos: seq<Todo>, taskId: string, targetColumnId: string): (moved: seq<Todo>)
    ensures !HasTask(todos, taskId) ==> moved == todos
    ensures |moved| == |todos|
    ensures forall i :: 0 <= i < |todos| ==>
              && moved[i].id == todos[i].id && moved[i].title == todos[i].title
              && moved[i].completed == todos[i].completed && moved[i].userId == todos[i].userId
              && moved[i].columnId == (if todos[i].id == taskId then targetColumnId else todos[i].columnId)
  {
    if FindTask(todos, taskId).None? then todos else SetColumnOf(todos, taskId, targetColumnId)
  }

  /** The column `toggleTask` sends a task to. */
  function ToggleTarget(columnId: string): string {
    if columnId == CompletedColumnId then ProgressColumnId else CompletedColumnId
  }

  /** `toggleTask`: an unknown id changes nothing; otherwise the first task with
      the id decides the target, `progress` from `completed` and `completed` from
      anywhere else, and every task with the id moves there. */
  function Toggled(todos: seq<Todo>, taskId: string): (toggled: seq<Todo>)
    ensures !HasTask(todos, taskId) ==> toggled == todos
    ensures HasTask(todos, taskId) ==>
              toggled == MoveTask(todos, taskId, ToggleTarget(FindTask(todos, taskId).value.columnId))
  {
    match FindTask(todos, taskId)
    case None => todos
    case Some(task) => SetColumnOf(todos, taskId, ToggleTarget(task.columnId))
  }

  /** For a task whose id is not shared, toggling twice restores the list exactly
      when the task started in `progress` or `completed`. */
  lemma ToggleTwice(todos: seq<Todo>, k: int)
    requires 0 <= k < |todos|
    requires forall j :: 0 <= j < |todos| && todos[j].id == todos[k].id ==> j == k
    ensures Toggled(Toggled(todos, todos[k].id), todos[k].id) == todos
            <==> todos[k].columnId == ProgressColumnId || todos[k].columnId == CompletedColumnId
  {
    var id := todos[k].id;
    var c := todos[k].columnId;
    assert HasTask(todos, id);
    assert FindTask(todos, id).value == todos[k];
    var once := Toggled(todos, id);
    assert once[k].id == id;
    assert HasTask(once, id);
    assert FindTask(once, id).value == once[k];
    var twice := Toggled(once, id);
    assert twice[k].columnId == ToggleTarget(ToggleTarget(c));
    if c == ProgressColumnId || c == CompletedColumnId {
      assert forall i :: 0 <= i < |todos| ==> twice[i] == todos[i];
    }
  }

  /** The map `updateTaskTitle` applies: every task with the id gets the title. */
  function SetTitleOf(todos: seq<Todo>, id: string, title: string): seq<Todo> {
    seq(|todos|, i requires 0 <= i < |todos| => if todos[i].id == id then todos[i].(title := title) else todos[i])
  }

  /** The title `previousTitle` holds after the optimistic map: that of the last
      task with the id, since the map callback overwrites it at every match. */
  function LastTitle(todos: seq<Todo>, id: string): (previous: Option<string>)
    ensures previous.None? <==> !HasTask(todos, id)
    ensures previous.Some? ==> exists i :: 0 <= i < |todos| && todos[i].id == id && todos[i].title == previous.value
                                           && forall j :: i < j < |todos| ==> todos[j].id != id
  {
    if todos == [] then None
    else
      var last := todos[|todos| - 1];
      var before := todos[..|todos| - 1];
      assert forall i :: 0 <= i < |before| ==> before[i] == todos[i];
      if last.id == id then Some(last.title) else LastTitle(before, id)
  }

  /** The optimistic rename undone: for a task whose id is not shared, writing the
      captured previous title back restores the list exactly; with no such task
      the rename changed nothing. */
  lemma RenameRollback(todos: seq<Todo>, id: string, trimmed: string)
    requires forall i, j :: 0 <= i < |todos| && 0 <= j < |todos| && todos[i].id == id && todos[j].id == id ==> i == j
    ensures LastTitle(todos, id).None? ==> SetTitleOf(todos, id, trimmed) == todos
    ensures LastTitle(todos, id).Some? ==>
              SetTitleOf(SetTitleOf(todos, id, trimmed), id, LastTitle(todos, id).value) == todos
  {
    var renamed := SetTitleOf(todos, id, trimmed);
    if LastTitle(todos, id).Some? {
      var restored := SetTitleOf(renamed, id, LastTitle(todos, id).value);
      assert forall i :: 0 <= i < |todos| ==> restored[i] == todos[i];
    } else {
      assert forall i :: 0 <= i < |todos| ==> renamed[i] == todos[i];
    }
  }

  /** `actualTodos.filter(task => task.id !== taskId)`. */
  function RemoveTask(todos: seq<Todo>, id: string): (kept: seq<Todo>)
    ensures |kept| <= |todos|
    ensures forall t :: t in kept <==> t in todos && t.id != id
    ensures !HasTask(todos, id) ==> kept == todos
    ensures !HasTask(kept, id)
  {
    if todos == [] then []
    else
      assert todos == [todos[0]] + todos[1..];
      (if todos[0].id == id then [] else [todos[0]]) + RemoveTask(todos[1..], id)
  }

  /** Removal keeps the order of the remaining tasks. */
  lemma {:induction false} RemoveTaskAppend(a: seq<Todo>, b: seq<Todo>, id: string)
    ensures RemoveTask(a + b, id) == RemoveTask(a, id) + RemoveTask(b, id)
  {
    if a == [] {
      assert a + b == b;
    } else {
      assert (a + b)[1..] == a[1..] + b;
      RemoveTaskAppend(a[1..], b, id);
    }
  }

  /** The optimistic map of `updateTaskTitle`: each task with the id gets the new
      title, and `previousTitle` is overwritten at each of them. */
  method RenameEach(todos: seq<Todo>, id: string, title: string)
    returns (updated: seq<Todo>, previousTitle: Option<string>)
    ensures updated == SetTitleOf(todos, id, title)
    ensures previousTitle == LastTitle(todos, id)
  {
    previousTitle := None;
    updated := [];
    for i := 0 to |todos|
      invariant updated == SetTitleOf(todos[..i], id, title)
      invariant previousTitle == LastTitle(todos[..i], id)
    {
      var task := todos[i];
      assert todos[..i + 1][..i] == todos[..i];
      if task.id == id {
        previousTitle := Some(task.title);
        updated := updated + [task.(title := title)];
      } else {
        updated := updated + [task];
      }
    }
    assert todos[..|todos|] == todos;
  }

  // ---------------------------------------------------------------------------
  // The board

  /** The state slots of the component that its handlers update. */
  class TaskBoard {
    var todos: seq<Todo>
    var columns: seq<Column>
    var error: Option<string>
    var deletingTaskId: Option<string>
    var isLoadingTasks: bool

    /** The first render: no tasks yet, loading, and the columns from storage. */
    constructor(saved: SavedColumns)
      ensures todos == [] && columns == InitialColumns(saved)
      ensures error == None && deletingTaskId == None && isLoadingTasks
    {
      todos := [];
      columns := InitialColumns(saved);
      error := None;
      deletingTaskId := None;
      isLoadingTasks := true;
    }

    /** The mount effect: the fetched list (or `None` when either request failed)
        becomes the task list, or the load error; loading ends either way. */
    method ReceiveInitialLoad(fetched: Option<seq<ApiTodo>>)
      modifies this
      ensures fetched.Some? ==> todos == ToAppTodos(fetched.value) && error == old(error)
      ensures fetched.None? ==> todos == old(todos) && error == Some(LoadError)
      ensures !isLoadingTasks
      ensures columns == old(columns) && deletingTaskId == old(deletingTaskId)
    {
      match fetched {
        case Some(apiTodos) => todos := ToAppTodos(apiTodos);
        case None => error := Some(LoadError);
      }
      isLoadingTasks := false;
    }

    /** `tasksByColumn`: one bucket per column id, each holding that column's tasks
        in list order; tasks in no column are in no bucket. */
    method TasksByColumn() returns (grouped: map<string, seq<Todo>>)
      ensures grouped.Keys == ColumnIds(columns)
      ensures forall id :: id in grouped ==> grouped[id] == TasksIn(todos, id)
    {
      grouped := map[];
      for i := 0 to |columns|
        invariant grouped.Keys == ColumnIds(columns[..i])
        invariant forall id :: id in grouped ==> grouped[id] == []
      {
        assert columns[..i + 1] == columns[..i] + [columns[i]];
        grouped := grouped[columns[i].id := []];
      }
      assert columns[..|columns|] == columns;
      for i := 0 to |todos|
        invariant grouped.Keys == ColumnIds(columns)
        invariant forall id :: id in grouped ==> grouped[id] == TasksIn(todos[..i], id)
      {
        var task := todos[i];
        assert todos[..i + 1][..i] == todos[..i];
        if task.columnId in grouped {
          grouped := grouped[task.columnId := grouped[task.columnId] + [task]];
        }
      }
      assert todos[..|todos|] == todos;
    }

    method MoveTaskToColumn(taskId: string, targetColumnId: string)
      modifies this
      ensures todos == MoveTask(old(todos), taskId, targetColumnId)
      ensures columns == old(columns) && error == old(error) && deletingTaskId == old(deletingTaskId)
      ensures isLoadingTasks == old(isLoadingTasks)
    {
      todos := MoveTask(todos, taskId, targetColumnId);
    }

    /** No gateway call is made. */
    method ToggleTask(taskId: string)
      modifies this
      ensures todos == Toggled(old(todos), taskId)
      ensures columns == old(columns) && error == old(error) && deletingTaskId == old(deletingTaskId)
      ensures isLoadingTasks == old(isLoadingTasks)
    {
      todos := Toggled(todos, taskId);
    }

    /** `addNewColumn`: a title whose local id is taken sets the duplicate error
        and changes no column; otherwise the column is appended with the next
        order. */
    method AddNewColumn(title: string)
      modifies this
      ensures HasColumn(old(columns), LocalColumnId(title)) ==>
                columns == old(columns) && error == Some(DuplicateColumnError)
      ensures !HasColumn(old(columns), LocalColumnId(title)) ==>
                columns == old(columns) + [Column(LocalColumnId(title), title, |old(columns)|)]
                && error == old(error)
      ensures OrdersContiguous(old(columns)) ==> OrdersContiguous(columns)
      ensures UniqueColumnIds(old(columns)) ==> UniqueColumnIds(columns)
      ensures todos == old(todos) && deletingTaskId == old(deletingTaskId)
      ensures isLoadingTasks == old(isLoadingTasks)
    {
      var id := LocalColumnId(title);
      if HasColumn(columns, id) {
        error := Some(DuplicateColumnError);
        return;
      }
      NewColumnKeepsShape(columns, title);
      columns := columns + [Column(id, title, |columns|)];
    }

    /** `updateTaskTitle`: a blank title does nothing. Otherwise every task with
        the id takes the trimmed title while the title of the last one is kept;
        when the gateway fails, that title is written back to every task with the
        id. The error slot is never touched. */
    method UpdateTaskTitle(taskId: string, newTitle: string, gatewayOk: bool)
      modifies this
      ensures Trim(newTitle) == [] ==> todos == old(todos)
      ensures Trim(newTitle) != [] && gatewayOk ==> todos == SetTitleOf(old(todos), taskId, Trim(newTitle))
      ensures Trim(newTitle) != [] && !gatewayOk && !HasTask(old(todos), taskId) ==> todos == old(todos)
      ensures Trim(newTitle) != [] && !gatewayOk && HasTask(old(todos), taskId) ==>
                todos == SetTitleOf(SetTitleOf(old(todos), taskId, Trim(newTitle)), taskId,
                                    LastTitle(old(todos), taskId).value)
      ensures columns == old(columns) && error == old(error) && deletingTaskId == old(deletingTaskId)
      ensures isLoadingTasks == old(isLoadingTasks)
    {
      var trimmed := Trim(newTitle);
      if trimmed == [] {
        return;
      }
      var updated, previousTitle := RenameEach(todos, taskId, trimmed);
      todos := updated;
      if !gatewayOk && previousTitle.Some? {
        todos := SetTitleOf(todos, taskId, previousTitle.value);
      }
    }

    /** The start of `deleteTask`: the task is marked as being deleted. */
    method StartDelete(taskId: string)
      modifies this
      ensures deletingTaskId == Some(taskId)
      ensures todos == old(todos) && columns == old(columns) && error == old(error)
      ensures isLoadingTasks == old(isLoadingTasks)
    {
      deletingTaskId := Some(taskId);
    }

    /** The end of `deleteTask`: on success every task with the id is removed, on
        failure the delete error is set; the mark is cleared either way. */
    method FinishDelete(taskId: string, gatewayOk: bool)
      modifies this
      ensures gatewayOk ==> todos == RemoveTask(old(todos), taskId) && error == old(error)
      ensures !gatewayOk ==> todos == old(todos) && error == Some(DeleteError)
      ensures deletingTaskId == None
      ensures columns == old(columns) && isLoadingTasks == old(isLoadingTasks)
    {
      if gatewayOk {
        todos := RemoveTask(todos, taskId);
      } else {
        error := Some(DeleteError);
      }
      deletingTaskId := None;
    }

    /** `deleteTask` as one step. */
    method DeleteTask(taskId: string, gatewayOk: bool)
      modifies this
      ensures gatewayOk ==> todos == RemoveTask(old(todos), taskId) && error == old(error)
      ensures !gatewayOk ==> todos == old(todos) && error == Some(DeleteError)
      ensures deletingTaskId == None
      ensures columns == old(columns) && isLoadingTasks == old(isLoadingTasks)
    {
      StartDelete(taskId);
      FinishDelete(taskId, gatewayOk);
    }

    /** `handleCreateTask`: the title and user go to the gateway only; the record it
        returns is put first in the list in the requested column, and a failure
        sets the create error. */
    method HandleCreateTask(title: string, userId: int, columnId: string, created: Option<ApiTodo>)
      modifies this
      ensures created.Some? ==> todos == [ToAppTask(created.value, columnId)] + old(todos) && error == old(error)
      ensures created.None? ==> todos == old(todos) && error == Some(CreateError)
      ensures columns == old(columns) && deletingTaskId == old(deletingTaskId)
      ensures isLoadingTasks == old(isLoadingTasks)
    {
      match created {
        case Some(serverTask) => todos := [ToAppTask(serverTask, columnId)] + todos;
        case None => error := Some(CreateError);
      }
    }
  }
}
