/** The records the tracker keeps: a task, its status and its timestamps. */
module TaskModel {

  datatype Option<+T> = None | Some(value: T)

  datatype Result<+R, +E> = Ok(value: R) | Err(error: E)

  /** Timestamps are the clock's text, taken as given; the model never compares them. */
  type Timestamp = string

  /** The three statuses a task moves through. */
  datatype Status = Todo | InProgress | Done

  /** The text a status is stored and compared as. */
  function StatusName(s: Status): string
  {
    match s
    case Todo => "todo"
    case InProgress => "in-progress"
    case Done => "done"
  }

  /** One task record of the document `{ "tasks": [...] }`. */
  datatype Task = Task(
    id: int,
    description: string,
    status: Status,
    createdAt: Timestamp,
    updatedAt: Timestamp)

  /** Distinct statuses are stored under distinct names, so comparing names compares statuses. */
  lemma StatusNameInjective(a: Status, b: Status)
    ensures StatusName(a) == StatusName(b) ==> a == b
  {
  }
}
