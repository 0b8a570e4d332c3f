# Task tracker CLI: a verified model of its task collection and dispatcher

The tracker is a single-user command-line tool. It keeps short textual
tasks in one JSON document, `{ "tasks": [...] }`. Each invocation runs one
command: `add`, `list [status]`, `update <id> <description>`,
`delete <id>`, `mark-in-progress <id>` or `mark-done <id>`. A changing
command loads the whole document, changes it in memory and writes the
whole document back; `list` loads but never writes, and help touches no
file.

This project models that core in Dafny. The file system and the clock
become parameters.

- `task_model.dfy` (module `TaskModel`): a `Task` record (id, description,
  status, created and updated timestamps) and the three statuses with the
  names they are stored under (`todo`, `in-progress`, `done`).
- `task_list.dfy` (module `TaskList`): the collection as a sequence of
  tasks. It defines id assignment (`NextId`), lookup of the first task
  with an id (`FirstIndex`), the effect of each command as a function
  (`AppendTask`, `UpdateDescription`, `RemoveFirst`, `MarkStatus`) and the
  status filter of `list` (`Filter`, `ListView`). The lemmas state what
  these functions guarantee.
- `task_repository.dfy` (module `TaskRepository`): class `TaskDocument`
  holds the loaded document's task list. Its methods change that list in
  place, the way task_cli.py does: append, or a loop that finds the
  first task with the id, assigns its fields or deletes it, and stops.
  Each method is proved to leave the list exactly as the matching
  `TaskList` function describes, and to report whether the id was found.
- `store.dfy` (module `Store`): the backing file as *missing*,
  *unreadable* or *holding a task list*, and what loading it yields.
- `arg_parse.dfy` (module `ArgParse`): reading an id argument as a signed
  decimal number, and joining description words with single spaces.
- `cli.dfy` (module `Cli`): argument validation (`Parse`), one whole
  invocation as a value (`Run`), and the method `Dispatch`. `Dispatch`
  performs the invocation with the `TaskDocument` methods and is proved
  equal to `Run`. The lemmas about `Run` give the exit codes, the usage
  errors, what is saved, and the end-to-end scenarios.

An invocation's result records four things: the exit status, whether
loading reported an error, the collection handed to save (none when save
is never reached), and a report that stands for the printed message. The
words passed in are those after the program name, `sys.argv[1:]`. The
clock reading `now` and whether the write succeeds are parameters.
`FileAfter` gives the backing file afterwards. The file is untouched when
nothing was saved. It holds the saved collection after a successful
write. It is unknown after a failed write, because the write may already
have truncated it.

Some behaviours of the program are easy to mistake:

- Ids are reused. The next id is the largest present id plus one, so
  deleting the task with the largest id hands that id to the next `add`.
  The model proves that the next id is larger than every present id
  (`NextId`, `NextIdIsFresh`). It proves that, with positive ids,
  deleting never raises the next id (`RemoveFirstNeverRaisesNextId`).
  Without that condition it can: for a loaded task with id -5 alone, the
  next id is -4 before `delete -5` and 1 after it. `DeletingLargestIdFreesIt`
  shows a concrete reuse.
- `updatedAt >= createdAt` is not enforced by the code and is not claimed.
- Empty descriptions are accepted: `add ""` stores an empty description.
- `mark_task` sets a status only for the words `mark-in-progress` and
  `mark-done`. For any other word it still restamps `updatedAt`. The
  dispatcher passes only those two words.
- Ids are not checked for uniqueness when the file is loaded. Every
  lookup acts on the first task with the id. Uniqueness and positivity
  are proved to be preserved by every command (`RunKeepsIdsWellFormed`),
  not assumed.
- A failed save need not leave the previous file in place. A failure
  after `open(..., 'w')` has truncated the file leaves it truncated or
  partly written. A failure of `open` itself leaves it as it was. The
  model therefore treats the file after a failed save as unknown.

## Model

| member | source | states |
|---|---|---|
| `TaskModel.StatusName` | task_cli.py:75 | the stored text of each status: `todo`, `in-progress`, `done` (also written at lines 164 and 166) |
| `Store.Load` | task_cli.py:16-25 | a missing file gives an empty collection; an unreadable one gives an empty collection and a reported error; a readable one gives its task list |
| `TaskList.AppendTask` | task_cli.py:69-80 | the list with one new task at the end: the next id, the description, status todo, both timestamps `now` |
| `TaskList.UpdateDescription` | task_cli.py:116-119 | the first task with the id gets the new description and updatedAt `now`; the list is unchanged when no task has the id |
| `TaskList.RemoveFirst` | task_cli.py:139-141 | the list without the first task that has the id; unchanged when no task has it |
| `TaskList.NewStatus` | task_cli.py:163-166 | `mark-in-progress` gives in-progress, `mark-done` gives done, any other word keeps the status |
| `TaskList.MarkStatus` | task_cli.py:161-168 | the first task with the id gets status NewStatus of its status and updatedAt `now`; unchanged when no task has the id |
| `TaskList.Filter` | task_cli.py:97 | the tasks whose status text equals the filter, in list order |
| `TaskList.ListView` | task_cli.py:96-97 | Filter under a present, non-empty filter; the whole list otherwise |
| `ArgParse.Join` | task_cli.py:208 | the words joined with single spaces (also used for update at line 225); empty for no words |
| `Cli.ParseId` | task_cli.py:219-223 | the id for a numeric word, IdNotNumber otherwise (the same check at lines 233-237 and 246-250) |
| `Cli.Parse` | task_cli.py:197-256 | the command chosen by the first word, or the usage error: arity checked first, then the id, and unknown words rejected |
| `Cli.Saved` | task_cli.py:81-85 | after a change, hands the list to save: exit 0 with the command's report if the write succeeds, exit 1 with SaveFailed otherwise (as at lines 120-124, 142-146 and 170-174) |
| `Cli.Execute` | task_cli.py:62-178 | a validated command on the loaded file: add appends and saves; list shows the view and saves nothing; update, delete and mark save the changed list when the id is present and exit 1 with TaskNotFound otherwise |
| `Cli.Run` | task_cli.py:196-256 | a whole invocation: a usage error exits 1 before any load; otherwise the command is executed |
| `Cli.FileAfter` | task_cli.py:36-41 | the file after an invocation: unchanged when nothing was saved, the saved list after a successful write, unknown after a failed one |
| `TaskList.MaxId` | task_cli.py:53 | the result is at least every id in a non-empty list, and some task has it |
| `TaskList.NextId` | task_cli.py:51-53 | 1 for an empty list; otherwise larger than every id, and exactly one more than some present id (the maximum plus one) |
| `TaskList.NextIdIsFresh` | task_cli.py:51-53 | the next id is carried by no task, so appending a task with it keeps ids unique |
| `TaskList.NextIdAfterConsecutive` | task_cli.py:51-53 | when the ids are 1..n in order, the next id is n+1 |
| `TaskList.AppendTaskKeepsIdsPositive` | task_cli.py:51-53 | with positive ids the next id is positive, and appending keeps all ids positive |
| `TaskList.AddAllKeepsNumbering` | task_cli.py:68-80 | a run of adds on a collection numbered 1..n grows it by one task per add and keeps the numbering consecutive |
| `TaskList.AddsFromEmptyNumberFromOne` | task_cli.py:68-80 | successive adds starting from an empty collection receive ids 1, 2, 3, ... |
| `TaskList.AppendTaskEffect` | task_cli.py:68-80 | add grows the list by exactly one task at the end: the earlier tasks are unchanged and in order; the new task has the next id, the description, status todo, and createdAt = updatedAt = now |
| `TaskList.FirstIndex` | task_cli.py:116-117 | the position of the first task with the id: every earlier task has another id; the position is inside the list exactly when some task has the id |
| `TaskList.FirstIndexIsFirst` | task_cli.py:116-117 | the first position holding the id is the one the lookup finds |
| `TaskList.UpdateDescriptionEffect` | task_cli.py:116-119 | update on a present id changes only the first matching task, and only its description (set to the text) and its updatedAt (set to now); the length, the order, every other task and the ids are unchanged |
| `TaskList.MarkStatusEffect` | task_cli.py:161-168 | mark on a present id changes only the first matching task: mark-in-progress sets in-progress, mark-done sets done, any other word keeps the status; updatedAt is set to now; every other field and task is unchanged |
| `TaskList.RemoveFirstEffect` | task_cli.py:139-141 | delete on a present id removes exactly the first matching task: the length drops by one, and the tasks before and after it keep their order |
| `TaskList.RemoveFirstKeepsIdsUnique` | task_cli.py:139-141 | with unique ids, no task carries the deleted id afterwards and the remaining ids stay unique |
| `TaskList.RemoveFirstKeepsIdsPositive` | task_cli.py:139-141 | deleting keeps all ids positive |
| `TaskList.AbsentIdChangesNothing` | task_cli.py:116-128 | for an id that no task carries, update, mark and delete leave the collection exactly as it was |
| `TaskList.UpdateAndMarkKeepIds` | task_cli.py:116-119 | update and mark keep every task's id at its position |
| `TaskList.RemoveFirstNeverRaisesNextId` | task_cli.py:51-53 | with positive ids, the next id after a delete is at most the next id before it |
| `TaskList.DeletingLargestIdFreesIt` | task_cli.py:53 | deleting the task with the largest id (2 of {1, 2}) makes the next add reuse id 2 |
| `TaskList.FilterIsOrderedSelection` | task_cli.py:96-97 | the filtered list is the list at strictly ascending positions, and those positions are exactly the tasks whose status is named by the filter |
| `TaskList.FilterMembers` | task_cli.py:97 | a task is in the filtered list exactly when it is in the collection and its status is named by the filter |
| `TaskList.UnrecognisedFilterIsEmpty` | task_cli.py:96-101 | a filter that names no status gives an empty list, not an error |
| `TaskList.NoFilterShowsAll` | task_cli.py:96 | an absent or empty filter shows the whole collection in order |
| `TaskList.StatusFilterMembers` | task_cli.py:96-97 | listing under a status name shows exactly the tasks that have that status |
| `TaskRepository.TaskDocument.constructor` | task_cli.py:113-114 | the document holds the loaded task list |
| `TaskRepository.TaskDocument.AddTask` | task_cli.py:68-80 | appends one new todo task with the next id, stamped now twice, and returns that id |
| `TaskRepository.TaskDocument.UpdateTask` | task_cli.py:113-128 | reports found exactly when some task has the id, and leaves the list as UpdateDescription says (unchanged when absent) |
| `TaskRepository.TaskDocument.DeleteTask` | task_cli.py:136-150 | reports found exactly when some task has the id, and leaves the list as RemoveFirst says (unchanged when absent) |
| `TaskRepository.TaskDocument.MarkTask` | task_cli.py:158-178 | reports found exactly when some task has the id, leaves the list as MarkStatus says, and returns the matching task's new status |
| `ArgParse.ParseInt` | task_cli.py:219-223 | a word is a number exactly when it is one or more digits, optionally after a single `+` or `-`; a leading minus gives a value of at most 0, anything else a value of at least 0 |
| `ArgParse.LeadingZeroValue` | task_cli.py:220 | a leading zero does not change the value of a digit string |
| `ArgParse.DigitsParse` | task_cli.py:220 | a word of one or more digits reads as the value of those digits |
| `ArgParse.SignedDigitsParse` | task_cli.py:220 | a `+` before digits keeps their value, a `-` negates it |
| `ArgParse.SpellingDoesNotChangeValue` | task_cli.py:220 | `+7`, `07` and `7` all read as 7, and `-7` as -7: a leading `+` or zero does not change the number |
| `ArgParse.DigitsRoundTrip` | task_cli.py:220 | the decimal digits of a natural number read back as that number |
| `ArgParse.ParseIntRoundTrip` | task_cli.py:220 | every integer written in decimal parses back to itself |
| `ArgParse.WordIsNotNumber` | task_cli.py:220-223 | a word with no digit is not a number |
| `ArgParse.SplitJoin` | task_cli.py:208 | joining words with single spaces loses nothing: splitting the joined description at spaces gives back the words, when no word holds a space |
| `Cli.Dispatch` | task_cli.py:196-256 | carrying out an invocation with the in-place document methods gives exactly the outcome Run describes |
| `Cli.ExitCodeMatchesReport` | task_cli.py:196-256 | every invocation exits 0 or 1, and 0 exactly for help, a listing, or a change that was saved |
| `Cli.NoArgumentsShowsHelp` | task_cli.py:197-199 | with no arguments, help is shown, the exit status is 0, and the file is not read |
| `Cli.UsageErrorsPrecedeStorage` | task_cli.py:203-256 | a usage error exits 1 with nothing saved, and the outcome depends on the words alone: not on the file, the clock or the write |
| `Cli.MissingArgumentsFail` | task_cli.py:203-244 | add without a description, update without both id and description, and delete or mark without an id are usage errors |
| `Cli.NonNumericIdFails` | task_cli.py:219-250 | a non-numeric id for update, delete or mark exits 1 before any collection operation |
| `Cli.UnknownCommandFails` | task_cli.py:253-256 | an unknown command word exits 1 with nothing saved |
| `Cli.AddJoinsDescription` | task_cli.py:203-209 | add saves the loaded collection plus one task whose description is the remaining words joined by single spaces, and reports the new id |
| `Cli.ListNeverSaves` | task_cli.py:87-104 | list exits 0, saves nothing, leaves the file as it was, and shows the filtered view or reports that no tasks were found when the view is empty |
| `Cli.MissingTaskFails` | task_cli.py:116-178 | update, delete or mark on an id that no task carries exits 1, reports the id as not found, saves nothing, and leaves the file as it was |
| `Cli.SaveFailureExitsOne` | task_cli.py:81-85 | when saving is reached and the write fails, the exit status is 1 and the report is a save failure |
| `Cli.MissingFileActsAsEmpty` | task_cli.py:16-25 | a missing file behaves exactly like an empty collection; an unreadable one does too, apart from the reported load error |
| `Cli.ExecuteKeepsIdsWellFormed` | task_cli.py:62-178 | whatever a command saves keeps ids unique and positive when the loaded ids were |
| `Cli.RunKeepsIdsWellFormed` | task_cli.py:196-256 | whatever an invocation saves keeps ids unique and positive when the loaded ids were |
| `Cli.UpdateOfAbsentIdScenario` | task_cli.py:213-226 | `update 99 x` on a file with ids 1 and 2 exits 1, reports 99 not found, and leaves the file alone |
| `Cli.AddThenListScenario` | task_cli.py:62-104 | `add "buy milk"` on a missing file saves task 1, and `list` then shows that task as todo |
| `Cli.MarkDoneThenListScenario` | task_cli.py:152-175 | `mark-done 1` makes task 1 done, and `list done` then shows it |
| `Cli.DeleteThenListScenario` | task_cli.py:130-147 | `delete 1` removes the only task, and `list` then reports that no tasks were found |

## Left out

- File I/O and JSON are not modelled. This covers `os.path.exists`,
  `open`, `json.load`, and `json.dump` with its indentation and literal
  non-ASCII text. A file is modelled as missing, unreadable, or holding a
  typed task list. A file that is not valid UTF-8 makes `json.load`
  raise `UnicodeDecodeError` (task_cli.py:22); that error escapes
  `load_tasks`, and the program ends with a traceback and exit status 1.
  The model has no file state for this case: `Unreadable` instead goes
  on with an empty collection.
- Documents without a `tasks` key, and records with missing keys or
  unexpected values, are not modelled, since a typed record cannot hold
  them. In particular, a stored status text outside the three names
  cannot occur in the model.
- The clock (`get_timestamp`) is a `now` parameter, one reading per
  command as in task_cli.py. The ISO-8601 text it produces is not
  modelled.
- Whether the write succeeds is a parameter. The contents of a partially
  written file are not modelled (`FileAfter` gives none).
- ArgParse.ParseInt: accepts only an optional `+` or `-` followed by
  ASCII digits. Python's `int()` also accepts surrounding whitespace,
  underscores between digits and non-ASCII decimal digits, so a few
  words it reads as numbers are usage errors here. In the other
  direction, Python 3.11 and later refuse a decimal string of more than
  4300 digits (the default `int` digit limit), which the program reports
  as a non-numeric id; the model reads such a word as an id and goes on
  to look it up.
- The help text, the error texts on stderr, and the exact format of list
  lines are not modelled. They are output rendering; the `Report`
  datatype stands for them.
- `sys.exit` is modelled only as the exit status. The program name
  (`sys.argv[0]`) is dropped.
- Concurrent invocations on the same file (last writer wins) are not
  modelled: each invocation is modelled alone.
