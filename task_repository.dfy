/**
 * The loaded document `{ "tasks": [...] }` and the commands that change it
 * in place: `add` appends, `update` and `mark-*` assign fields of the first
 * task with the given id and stop, `delete` removes that task and stops.
 * Each method is proved to leave the document as the matching function of
 * TaskList describes, and to report whether the id was found.
 */
module TaskRepository {
  import opened TaskModel
  import opened TaskList

  class TaskDocument {
    /** The document's task list, in insertion order. */
    var tasks: seq<Task>

    /** The document as loading left it. */
    constructor (loaded: seq<Task>)
      ensures tasks == loaded
    {
      tasks := loaded;
    }

    /** Appends a new `todo` task with the next id; returns that id. */
    method AddTask(description: string, now: Timestamp) returns (id: int)
      modifies this
      ensures id == NextId(old(tasks))
      ensures tasks == AppendTask(old(tasks), description, now)
    {
      id := NextId(tasks);
      tasks := tasks + [Task(id, description, Todo, now, now)];
    }

    /** Sets the description and update time of the first task with `id`; reports whether there was one. */
    method UpdateTask(id: int, description: string, now: Timestamp) returns (found: bool)
      modifies this
      ensures found == HasId(old(tasks), id)
      ensures tasks == UpdateDescription(old(tasks), id, description, now)
    {
      var i := 0;
      while i < |tasks|
        invariant 0 <= i <= |tasks|
        invariant tasks == old(tasks)
        invariant forall j :: 0 <= j < i ==> tasks[j].id != id
      {
        if tasks[i].id == id {
          FirstIndexIsFirst(tasks, id, i);
          tasks := tasks[i := tasks[i].(description := description, updatedAt := now)];
          return true;
        }
        i := i + 1;
      }
      return false;
    }

    /** Removes the first task with `id`; reports whether there was one. */
    method DeleteTask(id: int) returns (found: bool)
      modifies this
      ensures found == HasId(old(tasks), id)
      ensures tasks == RemoveFirst(old(tasks), id)
    {
      var i := 0;
      while i < |tasks|
        invariant 0 <= i <= |tasks|
        invariant tasks == old(tasks)
        invariant forall j :: 0 <= j < i ==> tasks[j].id != id
      {
        if tasks[i].id == id {
          FirstIndexIsFirst(tasks, id, i);
          tasks := tasks[..i] + tasks[i + 1..];
          return true;
        }
        i := i + 1;
      }
      return false;
    }

    /**
     * Gives the first task with `id` the status the command word names (none
     * for a word other than `mark-in-progress` or `mark-done`) and a new
     * update time; reports whether there was one and, if so, its status now.
     */
    method MarkTask(id: int, word: string, now: Timestamp) returns (found: bool, status: Status)
      modifies this
      ensures found == HasId(old(tasks), id)
      ensures tasks == MarkStatus(old(tasks), id, word, now)
      ensures found ==> status == NewStatus(old(tasks)[FirstIndex(old(tasks), id)].status, word)
    {
      var i := 0;
      while i < |tasks|
        invariant 0 <= i <= |tasks|
        invariant tasks == old(tasks)
        invariant forall j :: 0 <= j < i ==> tasks[j].id != id
      {
        if tasks[i].id == id {
          FirstIndexIsFirst(tasks, id, i);
          status := tasks[i].status;
          if word == "mark-in-progress" {
            status := InProgress;
          } else if word == "mark-done" {
            status := Done;
          }
          tasks := tasks[i := tasks[i].(status := status, updatedAt := now)];
          return true, status;
        }
        i := i + 1;
      }
      return false, Todo;
    }
  }
}
