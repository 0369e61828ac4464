/**
 * The records the task board works with, in the shapes
 * my-todo/src/components/TasksFetch/TasksFetch.tsx actually builds: string ids
 * for tasks and columns, and an `order` on columns.
 */
module Types {

  /** A task on the board: the server record with its id stringified and the id
      of the column it is shown in. */
  datatype Todo = Todo(id: string, title: string, completed: bool, userId: int, columnId: string)

  /** A board column. */
  datatype Column = Column(id: string, title: string, order: int)

  /** A task as the todo gateway returns it. */
  datatype ApiTodo = ApiTodo(id: int, title: string, completed: bool, userId: int)
}
