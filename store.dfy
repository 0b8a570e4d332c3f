/**
 * The backing file, seen only through what loading it yields.  Reading,
 * JSON decoding and writing are outside the model: a file is absent,
 * unreadable (I/O error or malformed JSON) or holds a task list.
 */
module Store {
  import opened TaskModel

  datatype TasksFile = Missing | Unreadable | Stored(tasks: seq<Task>)

  /** What loading gives: the collection, and whether a load error was reported. */
  datatype Loaded = Loaded(tasks: seq<Task>, diagnostic: bool)

  /** Loading never fails: a missing file is an empty collection, an unreadable one too, with a diagnostic. */
  function Load(file: TasksFile): Loaded
  {
    match file
    case Missing => Loaded([], false)
    case Unreadable => Loaded([], true)
    case Stored(ts) => Loaded(ts, false)
  }
}
