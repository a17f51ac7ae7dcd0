/** The records shared by both variants of the task-list app: the task record,
    its closed category enumeration, the status filter, one AI suggestion and
    the shape of a reply from the generative model. */
module Types {

  datatype Option<+T> = None | Some(value: T) {
    /** The value, or `default` when absent (a JavaScript default parameter). */
    function GetOr(default: T): T {
      match this
      case Some(v) => v
      case None => default
    }
  }

  /** The closed category enumeration of a task. */
  datatype Category = Work | Personal | Health | Social

  /** A task. `dueDate` is the creation timestamp the richer variant stamps on
      every task; the standalone variant creates records without one.
      `estimatedTime` is present only when an AI suggestion supplied it. */
  datatype Todo = Todo(
    id: string,
    text: string,
    completed: bool,
    category: Category,
    dueDate: Option<string>,
    estimatedTime: Option<string>)

  /** Which tasks the list view shows. */
  datatype Filter = All | Active | Completed

  /** One element of the AI suggestion array. `category` is None when the
      element has no category, so the caller's default parameter applies. */
  datatype Suggestion = Suggestion(task: string, category: Option<Category>, estimatedTime: Option<string>)

  /** What a call to the generative model produced: the call itself rejected
      (network or model error), or it returned text that `JSON.parse` either
      rejects (`Answered(None)`) or turns into a value (`Answered(Some(v))`). */
  datatype ModelReply<+T> = CallFailed | Answered(parsed: Option<T>)

  /** How an async function settles: its promise rejects, or resolves to a value. */
  datatype Settled<+T> = Rejects | Resolves(value: T)
}
