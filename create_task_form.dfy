/**
 * The new-task form of
 * my-todo/src/components/CreateTaskForm/CreateTaskForm.tsx: its three text
 * state slots, the effect that drops a selected column that no longer exists,
 * and the submit handler together with the predicate that disables the submit
 * button.
 */
module CreateTaskForm {
  import opened Maybe
  import opened JsText
  import opened Types
  import opened TasksFetch

  /** The arguments `handleSubmit` passes to `onCreate`. */
  datatype CreateCall = CreateCall(title: string, userId: string, columnId: string)

  /** `!title.trim() || !columnId || !userId`: the guard of `handleSubmit` and the
      `disabled` flag of the button. */
  predicate SubmitBlocked(title: string, columnId: string, userId: string) {
    Trim(title) == [] || columnId == [] || userId == []
  }

  /** What a submit sends, if anything. */
  function Submission(title: string, columnId: string, userId: string): Option<CreateCall> {
    if SubmitBlocked(title, columnId, userId) then None else Some(CreateCall(Trim(title), userId, columnId))
  }

  /** The button is enabled exactly when a click sends something, and what it sends
      is the trimmed title, non-blank and with no surrounding whitespace, the selected user and
      the selected column, none of them empty. */
  lemma SubmissionMatchesButton(title: string, columnId: string, userId: string)
    ensures Submission(title, columnId, userId).Some? <==> !SubmitBlocked(title, columnId, userId)
    ensures Submission(title, columnId, userId).Some? <==> !IsBlank(title) && columnId != [] && userId != []
    ensures Submission(title, columnId, userId).Some? ==>
              var call := Submission(title, columnId, userId).value;
              && call.title == Trim(title)
              && call.title != [] && !IsJsSpace(call.title[0]) && !IsJsSpace(call.title[|call.title| - 1])
              && call.userId == userId && call.columnId == columnId
  {
  }

  /** The column selection after the effect: a non-empty selection that is no
      column's id is cleared, and anything else is kept. */
  function SyncedColumn(columnId: string, columns: seq<Column>): (selected: string)
    ensures selected == [] || HasColumn(columns, selected)
    ensures columnId == [] || HasColumn(columns, columnId) ==> selected == columnId
    ensures selected != columnId ==> selected == []
  {
    if columnId != [] && !HasColumn(columns, columnId) then [] else columnId
  }

  /** The form's state slots. */
  class TaskForm {
    var title: string
    var columnId: string
    var userId: string

    constructor()
      ensures title == [] && columnId == [] && userId == []
    {
      title := [];
      columnId := [];
      userId := [];
    }

    predicate SubmitDisabled()
      reads this
    {
      SubmitBlocked(title, columnId, userId)
    }

    /** The text field's `onChange`. */
    method SetTitle(value: string)
      modifies this
      ensures title == value && columnId == old(columnId) && userId == old(userId)
    {
      title := value;
    }

    /** The column select's `onChange`. */
    method SelectColumn(value: string)
      modifies this
      ensures columnId == value && title == old(title) && userId == old(userId)
    {
      columnId := value;
    }

    /** The user select's `onChange`. */
    method SelectUser(value: string)
      modifies this
      ensures userId == value && title == old(title) && columnId == old(columnId)
    {
      userId := value;
    }

    /** The effect run when the columns or the selection change. */
    method SyncColumnSelection(columns: seq<Column>)
      modifies this
      ensures columnId == SyncedColumn(old(columnId), columns)
      ensures title == old(title) && userId == old(userId)
    {
      columnId := SyncedColumn(columnId, columns);
    }

    /** `handleSubmit`: a blocked form sends nothing and keeps its state; otherwise
        the submission is sent and every slot is cleared. */
    method HandleSubmit() returns (call: Option<CreateCall>)
      modifies this
      ensures call == Submission(old(title), old(columnId), old(userId))
      ensures call.None? <==> old(SubmitDisabled())
      ensures call.None? ==> title == old(title) && columnId == old(columnId) && userId == old(userId)
      ensures call.Some? ==> title == [] && columnId == [] && userId == []
    {
      if SubmitBlocked(title, columnId, userId) {
        return None;
      }
      call := Some(CreateCall(Trim(title), userId, columnId));
      title := [];
      columnId := [];
      userId := [];
    }
  }
}
