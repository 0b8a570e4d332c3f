/**
 * The command dispatcher: it validates the words after the program name,
 * picks the command, loads the collection, runs the command on the loaded
 * document and saves it.  `Run` is the whole invocation as a value;
 * `Dispatch` carries it out with the in-place methods of TaskDocument and
 * is proved to agree with it.
 */
module Cli {
  import opened TaskModel
  import opened TaskList
  import opened TaskRepository
  import opened Store
  import opened ArgParse

  /** A usage error: found before the collection is touched. */
  datatype UsageError =
    | MissingDescription
    | MissingIdAndDescription
    | MissingId
    | IdNotNumber
    | UnknownCommand(word: string)

  datatype Command =
    | Help
    | Add(description: string)
    | List(filter: Option<string>)
    | Update(id: int, description: string)
    | Delete(id: int)
    | Mark(id: int, word: string)

  /** What the invocation tells the user. */
  datatype Report =
    | HelpShown
    | TaskAdded(id: int)
    | NoTasksFound
    | TasksListed(tasks: seq<Task>)
    | TaskUpdated(id: int)
    | TaskDeleted(id: int)
    | TaskMarked(id: int, status: Status)
    | TaskNotFound(id: int)
    | SaveFailed
    | UsageFailure(error: UsageError)

  /**
   * The outcome of one invocation: its exit status, whether loading
   * reported an error, the collection handed to save (None when save is
   * never reached) and the report.
   */
  datatype Invocation = Invocation(exitCode: int, loadDiagnostic: bool, written: Option<seq<Task>>, report: Report)

  /** Reads the id argument: the id, or the usage error for a non-number. */
  function ParseId(word: string): Result<int, UsageError>
  {
    match ParseInt(word)
    case Some(id) => Ok(id)
    case None => Err(IdNotNumber)
  }

  /** Argument validation; `args` are the words after the program name. */
  function Parse(args: seq<string>): Result<Command, UsageError>
  {
    if args == [] then Ok(Help)
    else
      var word := args[0];
      if word == "add" then
        if |args| < 2 then Err(MissingDescription) else Ok(Add(Join(args[1..])))
      else if word == "list" then
        Ok(List(if |args| >= 2 then Some(args[1]) else None))
      else if word == "update" then
        if |args| < 3 then Err(MissingIdAndDescription)
        else
          match ParseId(args[1])
          case Ok(id) => Ok(Update(id, Join(args[2..])))
          case Err(e) => Err(e)
      else if word == "delete" then
        if |args| < 2 then Err(MissingId)
        else
          match ParseId(args[1])
          case Ok(id) => Ok(Delete(id))
          case Err(e) => Err(e)
      else if word == "mark-in-progress" || word == "mark-done" then
        if |args| < 2 then Err(MissingId)
        else
          match ParseId(args[1])
          case Ok(id) => Ok(Mark(id, word))
          case Err(e) => Err(e)
      else Err(UnknownCommand(word))
  }

  /** The end of a changing command: save `ts`, then succeed with `report` or fail. */
  function Saved(diagnostic: bool, ts: seq<Task>, saveSucceeds: bool, report: Report): Invocation
  {
    if saveSucceeds then Invocation(0, diagnostic, Some(ts), report)
    else Invocation(1, diagnostic, Some(ts), SaveFailed)
  }

  /** A validated command run against the backing file. */
  function Execute(cmd: Command, file: TasksFile, now: Timestamp, saveSucceeds: bool): Invocation
  {
    if cmd.Help? then Invocation(0, false, None, HelpShown)
    else
      var loaded := Load(file);
      var ts := loaded.tasks;
      var diagnostic := loaded.diagnostic;
      match cmd
      case Add(d) =>
        Saved(diagnostic, AppendTask(ts, d, now), saveSucceeds, TaskAdded(NextId(ts)))
      case List(f) =>
        var shown := ListView(ts, f);
        Invocation(0, diagnostic, None, if shown == [] then NoTasksFound else TasksListed(shown))
      case Update(id, d) =>
        if FirstIndex(ts, id) < |ts| then
          Saved(diagnostic, UpdateDescription(ts, id, d, now), saveSucceeds, TaskUpdated(id))
        else Invocation(1, diagnostic, None, TaskNotFound(id))
      case Delete(id) =>
        if FirstIndex(ts, id) < |ts| then
          Saved(diagnostic, RemoveFirst(ts, id), saveSucceeds, TaskDeleted(id))
        else Invocation(1, diagnostic, None, TaskNotFound(id))
      case Mark(id, word) =>
        var k := FirstIndex(ts, id);
        if k < |ts| then
          Saved(diagnostic, MarkStatus(ts, id, word, now), saveSucceeds, TaskMarked(id, NewStatus(ts[k].status, word)))
        else Invocation(1, diagnostic, None, TaskNotFound(id))
  }

  /** One invocation of the program with words `args`, the clock reading `now` and the outcome of saving. */
  function Run(args: seq<string>, file: TasksFile, now: Timestamp, saveSucceeds: bool): Invocation
  {
    match Parse(args)
    case Err(e) => Invocation(1, false, None, UsageFailure(e))
    case Ok(cmd) => Execute(cmd, file, now, saveSucceeds)
  }

  /**
   * The backing file after an invocation: untouched when nothing was
   * saved, the saved collection after a successful save, unknown (None)
   * after a failed one, since the write may already have truncated it.
   */
  function FileAfter(before: TasksFile, r: Invocation): Option<TasksFile>
  {
    match r.written
    case None => Some(before)
    case Some(ts) => if r.exitCode == 0 then Some(Stored(ts)) else None
  }

  /** Carries out one invocation: validation, load, the in-place change of the document, save. */
  method Dispatch(args: seq<string>, file: TasksFile, now: Timestamp, saveSucceeds: bool) returns (r: Invocation)
    ensures r == Run(args, file, now, saveSucceeds)
  {
    var parsed := Parse(args);
    if parsed.Err? {
      return Invocation(1, false, None, UsageFailure(parsed.error));
    }
    var cmd := parsed.value;
    if cmd.Help? {
      return Invocation(0, false, None, HelpShown);
    }
    var loaded := Load(file);
    var doc := new TaskDocument(loaded.tasks);
    match cmd {
      case Add(d) =>
        var id := doc.AddTask(d, now);
        r := Saved(loaded.diagnostic, doc.tasks, saveSucceeds, TaskAdded(id));
      case List(f) =>
        var shown := ListView(doc.tasks, f);
        r := Invocation(0, loaded.diagnostic, None, if shown == [] then NoTasksFound else TasksListed(shown));
      case Update(id, d) =>
        var found := doc.UpdateTask(id, d, now);
        if found {
          r := Saved(loaded.diagnostic, doc.tasks, saveSucceeds, TaskUpdated(id));
        } else {
          r := Invocation(1, loaded.diagnostic, None, TaskNotFound(id));
        }
      case Delete(id) =>
        var found := doc.DeleteTask(id);
        if found {
          r := Saved(loaded.diagnostic, doc.tasks, saveSucceeds, TaskDeleted(id));
        } else {
          r := Invocation(1, loaded.diagnostic, None, TaskNotFound(id));
        }
      case Mark(id, word) =>
        var found, status := doc.MarkTask(id, word, now);
        if found {
          r := Saved(loaded.diagnostic, doc.tasks, saveSucceeds, TaskMarked(id, status));
        } else {
          r := Invocation(1, loaded.diagnostic, None, TaskNotFound(id));
        }
    }
  }

  // ---------------------------------------------------------------------
  // Properties of an invocation

  /** Exit status 0 exactly for help, a listing and a change that was saved. */
  predicate Succeeded(report: Report)
  {
    report.HelpShown? || report.TaskAdded? || report.NoTasksFound? || report.TasksListed?
    || report.TaskUpdated? || report.TaskDeleted? || report.TaskMarked?
  }

  /** Every invocation exits 0 or 1, and 0 exactly when it succeeded. */
  lemma ExitCodeMatchesReport(args: seq<string>, file: TasksFile, now: Timestamp, saveSucceeds: bool)
    ensures var r := Run(args, file, now, saveSucceeds);
      (r.exitCode == 0 || r.exitCode == 1) && (r.exitCode == 0 <==> Succeeded(r.report))
  {
  }

  /** No arguments: the help text, exit 0, and the file is never read. */
  lemma NoArgumentsShowsHelp(file: TasksFile, now: Timestamp, saveSucceeds: bool)
    ensures Run([], file, now, saveSucceeds) == Invocation(0, false, None, HelpShown)
  {
  }

  /** A usage error exits 1 and is found before the file is read: the outcome depends on the words alone. */
  lemma UsageErrorsPrecedeStorage(args: seq<string>, file1: TasksFile, file2: TasksFile,
                                  now1: Timestamp, now2: Timestamp, save1: bool, save2: bool)
    requires Parse(args).Err?
    ensures Run(args, file1, now1, save1) == Run(args, file2, now2, save2)
    ensures Run(args, file1, now1, save1) == Invocation(1, false, None, UsageFailure(Parse(args).error))
  {
  }

  /** Missing arguments: `add` without a description, `update` without id and description, `delete` and `mark-*` without an id. */
  lemma MissingArgumentsFail(args: seq<string>, file: TasksFile, now: Timestamp, saveSucceeds: bool)
    requires args != []
    ensures args[0] == "add" && |args| < 2 ==>
      Run(args, file, now, saveSucceeds).report == UsageFailure(MissingDescription)
    ensures args[0] == "update" && |args| < 3 ==>
      Run(args, file, now, saveSucceeds).report == UsageFailure(MissingIdAndDescription)
    ensures args[0] in {"delete", "mark-in-progress", "mark-done"} && |args| < 2 ==>
      Run(args, file, now, saveSucceeds).report == UsageFailure(MissingId)
  {
  }

  /** An id argument that is not a number fails with exit 1 and nothing saved. */
  lemma NonNumericIdFails(args: seq<string>, file: TasksFile, now: Timestamp, saveSucceeds: bool)
    requires |args| >= 2 && ParseInt(args[1]).None?
    requires (args[0] == "update" && |args| >= 3) || args[0] in {"delete", "mark-in-progress", "mark-done"}
    ensures Run(args, file, now, saveSucceeds) == Invocation(1, false, None, UsageFailure(IdNotNumber))
  {
  }

  /** A word that is no command fails with exit 1 and nothing saved. */
  lemma UnknownCommandFails(args: seq<string>, file: TasksFile, now: Timestamp, saveSucceeds: bool)
    requires args != []
    requires args[0] !in {"add", "list", "update", "delete", "mark-in-progress", "mark-done"}
    ensures Run(args, file, now, saveSucceeds) == Invocation(1, false, None, UsageFailure(UnknownCommand(args[0])))
  {
  }

  /** `add` appends the remaining words, joined by single spaces, as a new task and reports its id. */
  lemma AddJoinsDescription(args: seq<string>, file: TasksFile, now: Timestamp)
    requires |args| >= 2 && args[0] == "add"
    ensures var ts := Load(file).tasks;
      Run(args, file, now, true) == Invocation(0, Load(file).diagnostic, Some(AppendTask(ts, Join(args[1..]), now)), TaskAdded(NextId(ts)))
  {
  }

  /** `list` never saves, and shows the filtered view or reports that there is nothing to show. */
  lemma ListNeverSaves(args: seq<string>, file: TasksFile, now: Timestamp, saveSucceeds: bool)
    requires args != [] && args[0] == "list"
    ensures var r := Run(args, file, now, saveSucceeds);
      var shown := ListView(Load(file).tasks, if |args| >= 2 then Some(args[1]) else None);
      && r.exitCode == 0
      && r.written == None
      && FileAfter(file, r) == Some(file)
      && (shown == [] ==> r.report == NoTasksFound)
      && (shown != [] ==> r.report == TasksListed(shown))
  {
  }

  /** `update`, `delete` or `mark-*` on an id no task carries: exit 1, nothing saved, the file as it was. */
  lemma MissingTaskFails(args: seq<string>, file: TasksFile, now: Timestamp, saveSucceeds: bool, id: int)
    requires |args| >= 2 && ParseInt(args[1]) == Some(id)
    requires (args[0] == "update" && |args| >= 3) || args[0] in {"delete", "mark-in-progress", "mark-done"}
    requires !HasId(Load(file).tasks, id)
    ensures var r := Run(args, file, now, saveSucceeds);
      r == Invocation(1, Load(file).diagnostic, None, TaskNotFound(id)) && FileAfter(file, r) == Some(file)
  {
  }

  /** A failed save always exits 1. */
  lemma SaveFailureExitsOne(args: seq<string>, file: TasksFile, now: Timestamp)
    requires Run(args, file, now, false).written.Some?
    ensures Run(args, file, now, false).exitCode == 1
    ensures Run(args, file, now, false).report == SaveFailed
  {
  }

  /** A missing file behaves exactly as an empty one; an unreadable one too, apart from the diagnostic. */
  lemma MissingFileActsAsEmpty(args: seq<string>, now: Timestamp, saveSucceeds: bool)
    ensures Run(args, Missing, now, saveSucceeds) == Run(args, Stored([]), now, saveSucceeds)
    ensures Run(args, Unreadable, now, saveSucceeds).(loadDiagnostic := false) == Run(args, Stored([]), now, saveSucceeds)
  {
  }

  /** Whatever a command saves keeps ids unique and positive when the loaded ones were. */
  lemma ExecuteKeepsIdsWellFormed(cmd: Command, file: TasksFile, now: Timestamp, saveSucceeds: bool)
    requires UniqueIds(Load(file).tasks) && PositiveIds(Load(file).tasks)
    ensures var r := Execute(cmd, file, now, saveSucceeds);
      r.written.Some? ==> UniqueIds(r.written.value) && PositiveIds(r.written.value)
  {
    var ts := Load(file).tasks;
    match cmd
    case Help =>
    case List(_) =>
    case Add(d) =>
      AppendTaskKeepsIdsPositive(ts, d, now);
      NextIdIsFresh(ts, Task(NextId(ts), d, Todo, now, now));
    case Update(id, d) =>
      UpdateAndMarkKeepIds(ts, id, d, "", now);
      SameIdsSameWellFormedness(ts, UpdateDescription(ts, id, d, now));
    case Mark(id, word) =>
      UpdateAndMarkKeepIds(ts, id, "", word, now);
      SameIdsSameWellFormedness(ts, MarkStatus(ts, id, word, now));
    case Delete(id) =>
      RemoveFirstKeepsIdsUnique(ts, id);
      RemoveFirstKeepsIdsPositive(ts, id);
  }

  /** Whatever an invocation saves keeps ids unique and positive when the loaded ones were. */
  lemma RunKeepsIdsWellFormed(args: seq<string>, file: TasksFile, now: Timestamp, saveSucceeds: bool)
    requires UniqueIds(Load(file).tasks) && PositiveIds(Load(file).tasks)
    ensures var r := Run(args, file, now, saveSucceeds);
      r.written.Some? ==> UniqueIds(r.written.value) && PositiveIds(r.written.value)
  {
    if Parse(args).Ok? {
      ExecuteKeepsIdsWellFormed(Parse(args).value, file, now, saveSucceeds);
    }
  }

  // ---------------------------------------------------------------------
  // Scenarios

  /** Updating id 99 in a store holding ids 1 and 2 fails, names 99, and leaves the file alone. */
  lemma UpdateOfAbsentIdScenario(a: Task, b: Task, now: Timestamp, saveSucceeds: bool)
    requires a.id == 1 && b.id == 2
    ensures var file := Stored([a, b]);
      var r := Run(["update", "99", "x"], file, now, saveSucceeds);
      r == Invocation(1, false, None, TaskNotFound(99)) && FileAfter(file, r) == Some(file)
  {
    ParseIntRoundTrip(99);
    assert IntToString(99) == "99";
    assert !HasId([a, b], 99);
  }

  /** `add "buy milk"` from a missing file creates task 1, which `list` then shows. */
  lemma AddThenListScenario(t1: Timestamp)
    ensures var r := Run(["add", "buy milk"], Missing, t1, true);
      var milk := Task(1, "buy milk", Todo, t1, t1);
      && r.report == TaskAdded(1)
      && FileAfter(Missing, r) == Some(Stored([milk]))
      && Run(["list"], Stored([milk]), t1, true).report == TasksListed([milk])
  {
    var args := ["add", "buy milk"];
    assert args[1..] == ["buy milk"];
    assert Parse(args) == Ok(Add("buy milk"));
    var milk := Task(1, "buy milk", Todo, t1, t1);
    assert AppendTask([], "buy milk", t1) == [milk];
    assert Run(args, Missing, t1, true) == Invocation(0, false, Some([milk]), TaskAdded(1));
    assert Parse(["list"]) == Ok(List(None));
  }

  /** `mark-done 1` then `list done` shows the task as done. */
  lemma MarkDoneThenListScenario(t1: Timestamp, t2: Timestamp)
    ensures var before := Stored([Task(1, "buy milk", Todo, t1, t1)]);
      var done := Task(1, "buy milk", Done, t1, t2);
      var r := Run(["mark-done", "1"], before, t2, true);
      && r.report == TaskMarked(1, Done)
      && FileAfter(before, r) == Some(Stored([done]))
      && Run(["list", "done"], Stored([done]), t2, true).report == TasksListed([done])
  {
    OneParses();
    var args := ["mark-done", "1"];
    assert Parse(args) == Ok(Mark(1, "mark-done"));
    var todo := Task(1, "buy milk", Todo, t1, t1);
    var done := Task(1, "buy milk", Done, t1, t2);
    assert FirstIndex([todo], 1) == 0;
    assert MarkStatus([todo], 1, "mark-done", t2) == [done];
    assert Run(args, Stored([todo]), t2, true) == Invocation(0, false, Some([done]), TaskMarked(1, Done));
    assert Parse(["list", "done"]) == Ok(List(Some("done")));
    assert Filter([done], "done") == [done];
  }

  /** `delete 1` on the only task, then `list`: "No tasks found." */
  lemma DeleteThenListScenario(t1: Timestamp, t2: Timestamp, t3: Timestamp)
    ensures var before := Stored([Task(1, "buy milk", Done, t1, t2)]);
      var r := Run(["delete", "1"], before, t3, true);
      && r.report == TaskDeleted(1)
      && FileAfter(before, r) == Some(Stored([]))
      && Run(["list"], Stored([]), t3, true).report == NoTasksFound
  {
    OneParses();
    var args := ["delete", "1"];
    assert Parse(args) == Ok(Delete(1));
    var done := Task(1, "buy milk", Done, t1, t2);
    assert FirstIndex([done], 1) == 0;
    assert RemoveFirst([done], 1) == [];
    assert Run(args, Stored([done]), t3, true) == Invocation(0, false, Some([]), TaskDeleted(1));
    assert Parse(["list"]) == Ok(List(None));
  }

  lemma OneParses()
    ensures ParseInt("1") == Some(1)
  {
    ParseIntRoundTrip(1);
    assert IntToString(1) == "1";
  }
}
