/**
 * The task collection as a value: id assignment, lookup by id, and the
 * effect of each command on the ordered sequence of tasks.  The methods of
 * TaskRepository are proved to change a document exactly as these
 * functions say; the lemmas here say what those changes mean.
 */
module TaskList {
  import opened TaskModel

  /** Some task in `ts` carries `id`. */
  predicate HasId(ts: seq<Task>, id: int)
  {
    exists j :: 0 <= j < |ts| && ts[j].id == id
  }

  /** No two tasks of `ts` share an id. */
  predicate UniqueIds(ts: seq<Task>)
  {
    forall i, j :: 0 <= i < j < |ts| ==> ts[i].id != ts[j].id
  }

  /** The largest id in a non-empty collection. */
  function MaxId(ts: seq<Task>): (m: int)
    requires ts != []
    ensures forall j :: 0 <= j < |ts| ==> ts[j].id <= m
    ensures exists j :: 0 <= j < |ts| && ts[j].id == m
  {
    if |ts| == 1 then ts[0].id
    else
      var rest := MaxId(ts[1..]);
      assert exists j :: 1 <= j < |ts| && ts[j].id == rest by {
        var j' :| 0 <= j' < |ts[1..]| && ts[1..][j'].id == rest;
        assert ts[j' + 1].id == rest;
      }
      if ts[0].id >= rest then ts[0].id else rest
  }

  /** The id the next added task receives: 1 for an empty collection, else the largest id plus one. */
  function NextId(ts: seq<Task>): (r: int)
    ensures ts == [] ==> r == 1
    ensures forall j :: 0 <= j < |ts| ==> ts[j].id < r
    ensures ts != [] ==> exists j :: 0 <= j < |ts| && ts[j].id == r - 1
  {
    if ts == [] then 1 else MaxId(ts) + 1
  }

  /** The position of the first task carrying `id`, or `|ts|` when there is none. */
  function FirstIndex(ts: seq<Task>, id: int): (k: nat)
    ensures k <= |ts|
    ensures k < |ts| ==> ts[k].id == id
    ensures forall j :: 0 <= j < k ==> ts[j].id != id
    ensures k < |ts| <==> HasId(ts, id)
  {
    if ts == [] then 0
    else if ts[0].id == id then 0
    else
      var k' := FirstIndex(ts[1..], id);
      assert forall j :: 1 <= j <= k' ==> ts[j] == ts[1..][j - 1];
      1 + k'
  }

  /** The collection after `add`: one new `todo` task at the end, stamped `now` twice. */
  function AppendTask(ts: seq<Task>, description: string, now: Timestamp): seq<Task>
  {
    ts + [Task(NextId(ts), description, Todo, now, now)]
  }

  /** The collection after `update`: the first task with `id` gets the new description and `now`. */
  function UpdateDescription(ts: seq<Task>, id: int, description: string, now: Timestamp): seq<Task>
  {
    var k := FirstIndex(ts, id);
    if k < |ts| then ts[k := ts[k].(description := description, updatedAt := now)] else ts
  }

  /** The collection after `delete`: the first task with `id` is gone. */
  function RemoveFirst(ts: seq<Task>, id: int): seq<Task>
  {
    var k := FirstIndex(ts, id);
    if k < |ts| then ts[..k] + ts[k + 1..] else ts
  }

  /** The status a `mark-*` command word gives a task that had status `s`. */
  function NewStatus(s: Status, word: string): Status
  {
    if word == "mark-in-progress" then InProgress
    else if word == "mark-done" then Done
    else s
  }

  /** The collection after `mark-*`: the first task with `id` gets its new status and `now`. */
  function MarkStatus(ts: seq<Task>, id: int, word: string, now: Timestamp): seq<Task>
  {
    var k := FirstIndex(ts, id);
    if k < |ts| then ts[k := ts[k].(status := NewStatus(ts[k].status, word), updatedAt := now)] else ts
  }

  /** The tasks whose stored status text equals `f`, in collection order. */
  function Filter(ts: seq<Task>, f: string): seq<Task>
  {
    if ts == [] then []
    else (if StatusName(ts[0].status) == f then [ts[0]] else []) + Filter(ts[1..], f)
  }

  /** What `list` shows: filtered when the filter is present and non-empty, everything otherwise. */
  function ListView(ts: seq<Task>, filter: Option<string>): seq<Task>
  {
    if filter.Some? && filter.value != "" then Filter(ts, filter.value) else ts
  }

  /** The ids of `ts`, in order. */
  function Ids(ts: seq<Task>): (r: seq<int>)
    ensures |r| == |ts| && forall j :: 0 <= j < |ts| ==> r[j] == ts[j].id
  {
    if ts == [] then [] else [ts[0].id] + Ids(ts[1..])
  }

  // ---------------------------------------------------------------------
  // Id assignment

  /** The next id is not in use, so appending a task that carries it keeps ids unique. */
  lemma NextIdIsFresh(ts: seq<Task>, t: Task)
    requires UniqueIds(ts)
    requires t.id == NextId(ts)
    ensures !HasId(ts, t.id)
    ensures UniqueIds(ts + [t])
  {
  }

  /** When the ids are exactly 1, 2, ..., n in order, the next id is n + 1. */
  lemma NextIdAfterConsecutive(ts: seq<Task>)
    requires forall k :: 0 <= k < |ts| ==> ts[k].id == k + 1
    ensures NextId(ts) == |ts| + 1
  {
    if ts != [] {
      var j :| 0 <= j < |ts| && ts[j].id == NextId(ts) - 1;
      assert ts[|ts| - 1].id == |ts|;
    }
  }

  /** Adding the given descriptions one after another, each at its own time. */
  function AddAll(ts: seq<Task>, adds: seq<(string, Timestamp)>): seq<Task>
    decreases |adds|
  {
    if adds == [] then ts else AddAll(AppendTask(ts, adds[0].0, adds[0].1), adds[1..])
  }

  /** A run of adds on a collection numbered 1..n keeps numbering n+1, n+2, ... */
  lemma {:induction false} AddAllKeepsNumbering(ts: seq<Task>, adds: seq<(string, Timestamp)>)
    requires forall k :: 0 <= k < |ts| ==> ts[k].id == k + 1
    ensures |AddAll(ts, adds)| == |ts| + |adds|
    ensures forall k :: 0 <= k < |AddAll(ts, adds)| ==> AddAll(ts, adds)[k].id == k + 1
    decreases |adds|
  {
    if adds != [] {
      NextIdAfterConsecutive(ts);
      var ts' := AppendTask(ts, adds[0].0, adds[0].1);
      assert forall k :: 0 <= k < |ts'| ==> ts'[k].id == k + 1;
      AddAllKeepsNumbering(ts', adds[1..]);
    }
  }

  /** From an empty collection, successive adds receive ids 1, 2, 3, ... */
  lemma AddsFromEmptyNumberFromOne(adds: seq<(string, Timestamp)>)
    ensures |AddAll([], adds)| == |adds|
    ensures forall k :: 0 <= k < |adds| ==> AddAll([], adds)[k].id == k + 1
  {
    AddAllKeepsNumbering([], adds);
  }

  // ---------------------------------------------------------------------
  // add

  /** `add` appends exactly one task and leaves every earlier task where it was. */
  lemma AppendTaskEffect(ts: seq<Task>, description: string, now: Timestamp)
    ensures var r := AppendTask(ts, description, now);
      && |r| == |ts| + 1
      && r[..|ts|] == ts
      && r[|ts|].id == NextId(ts)
      && r[|ts|].description == description
      && r[|ts|].status == Todo
      && r[|ts|].createdAt == r[|ts|].updatedAt == now
  {
  }

  // ---------------------------------------------------------------------
  // update, mark, delete

  /** `k` is the position of the first task carrying `id`. */
  ghost predicate IsFirstWith(ts: seq<Task>, id: int, k: nat)
  {
    k < |ts| && ts[k].id == id && forall j :: 0 <= j < k ==> ts[j].id != id
  }

  lemma FirstIndexIsFirst(ts: seq<Task>, id: int, k: nat)
    requires IsFirstWith(ts, id, k)
    ensures FirstIndex(ts, id) == k
  {
  }

  /** `update` on a present id: only the first matching task changes, and only its description and update time. */
  lemma UpdateDescriptionEffect(ts: seq<Task>, id: int, description: string, now: Timestamp, k: nat)
    requires IsFirstWith(ts, id, k)
    ensures var r := UpdateDescription(ts, id, description, now);
      && |r| == |ts|
      && r[k].id == id
      && r[k].description == description
      && r[k].updatedAt == now
      && r[k].status == ts[k].status
      && r[k].createdAt == ts[k].createdAt
      && (forall j :: 0 <= j < |ts| && j != k ==> r[j] == ts[j])
      && Ids(r) == Ids(ts)
  {
    FirstIndexIsFirst(ts, id, k);
  }

  /** `mark-*` on a present id: only the first matching task changes, and only its status and update time. */
  lemma MarkStatusEffect(ts: seq<Task>, id: int, word: string, now: Timestamp, k: nat)
    requires IsFirstWith(ts, id, k)
    ensures var r := MarkStatus(ts, id, word, now);
      && |r| == |ts|
      && r[k].id == id
      && r[k].description == ts[k].description
      && r[k].updatedAt == now
      && r[k].createdAt == ts[k].createdAt
      && (word == "mark-in-progress" ==> r[k].status == InProgress)
      && (word == "mark-done" ==> r[k].status == Done)
      && (word != "mark-in-progress" && word != "mark-done" ==> r[k].status == ts[k].status)
      && (forall j :: 0 <= j < |ts| && j != k ==> r[j] == ts[j])
      && Ids(r) == Ids(ts)
  {
    FirstIndexIsFirst(ts, id, k);
  }

  /** `delete` on a present id: the first matching task is gone, the rest keep their order. */
  lemma RemoveFirstEffect(ts: seq<Task>, id: int, k: nat)
    requires IsFirstWith(ts, id, k)
    ensures var r := RemoveFirst(ts, id);
      && |r| == |ts| - 1
      && (forall j :: 0 <= j < k ==> r[j] == ts[j])
      && (forall j :: k <= j < |r| ==> r[j] == ts[j + 1])
  {
    FirstIndexIsFirst(ts, id, k);
  }

  /** With unique ids, `delete` removes the only task carrying the id and keeps the rest unique. */
  lemma RemoveFirstKeepsIdsUnique(ts: seq<Task>, id: int)
    requires UniqueIds(ts)
    ensures UniqueIds(RemoveFirst(ts, id))
    ensures !HasId(RemoveFirst(ts, id), id)
  {
    var k := FirstIndex(ts, id);
    if k < |ts| {
      var r := RemoveFirst(ts, id);
      assert forall j :: 0 <= j < |r| ==> r[j] == ts[if j < k then j else j + 1];
      forall j | 0 <= j < |r|
        ensures r[j].id != id
      {
        var orig := if j < k then j else j + 1;
        assert orig != k && r[j] == ts[orig];
      }
    }
  }

  /** An id that no task carries: `update`, `delete` and `mark-*` leave the collection as it was. */
  lemma AbsentIdChangesNothing(ts: seq<Task>, id: int, description: string, word: string, now: Timestamp)
    requires !HasId(ts, id)
    ensures UpdateDescription(ts, id, description, now) == ts
    ensures MarkStatus(ts, id, word, now) == ts
    ensures RemoveFirst(ts, id) == ts
  {
  }

  /** Updating and marking keep every task's id where it was. */
  lemma UpdateAndMarkKeepIds(ts: seq<Task>, id: int, description: string, word: string, now: Timestamp)
    ensures Ids(UpdateDescription(ts, id, description, now)) == Ids(ts)
    ensures Ids(MarkStatus(ts, id, word, now)) == Ids(ts)
  {
  }

  /** Every id is positive, as ids handed out by `add` from an empty collection are. */
  predicate PositiveIds(ts: seq<Task>)
  {
    forall j :: 0 <= j < |ts| ==> ts[j].id > 0
  }

  /** `add` hands out a positive id, so positive ids stay positive. */
  lemma AppendTaskKeepsIdsPositive(ts: seq<Task>, description: string, now: Timestamp)
    requires PositiveIds(ts)
    ensures NextId(ts) > 0
    ensures PositiveIds(AppendTask(ts, description, now))
  {
    if ts != [] {
      assert ts[0].id < NextId(ts);
    }
  }

  /** Two collections with the same ids agree on uniqueness and positivity of ids. */
  lemma SameIdsSameWellFormedness(ts: seq<Task>, us: seq<Task>)
    requires Ids(ts) == Ids(us)
    ensures UniqueIds(ts) <==> UniqueIds(us)
    ensures PositiveIds(ts) <==> PositiveIds(us)
  {
    assert forall j :: 0 <= j < |ts| ==> ts[j].id == Ids(ts)[j] == us[j].id;
  }

  /** Deleting keeps ids positive. */
  lemma RemoveFirstKeepsIdsPositive(ts: seq<Task>, id: int)
    requires PositiveIds(ts)
    ensures PositiveIds(RemoveFirst(ts, id))
  {
    var k := FirstIndex(ts, id);
    if k < |ts| {
      var r := RemoveFirst(ts, id);
      assert forall j :: 0 <= j < |r| ==> r[j] == ts[if j < k then j else j + 1];
    }
  }

  /** With positive ids, deleting never raises the next id. */
  lemma RemoveFirstNeverRaisesNextId(ts: seq<Task>, id: int)
    requires PositiveIds(ts)
    ensures NextId(RemoveFirst(ts, id)) <= NextId(ts)
  {
    var r := RemoveFirst(ts, id);
    var k := FirstIndex(ts, id);
    if k < |ts| {
      assert ts[k].id < NextId(ts);
      if r != [] {
        assert forall j :: 0 <= j < |r| ==> r[j] == ts[if j < k then j else j + 1];
        var j :| 0 <= j < |r| && r[j].id == NextId(r) - 1;
        assert ts[if j < k then j else j + 1].id < NextId(ts);
      }
    }
  }

  /** Ids are reused: deleting the task with the largest id hands that id to the next `add`. */
  lemma DeletingLargestIdFreesIt(now: Timestamp)
    ensures var ts := [Task(1, "a", Todo, now, now), Task(2, "b", Todo, now, now)];
      NextId(RemoveFirst(ts, 2)) == 2 == ts[1].id
  {
    var ts := [Task(1, "a", Todo, now, now), Task(2, "b", Todo, now, now)];
    assert FirstIndex(ts, 2) == 1;
    assert RemoveFirst(ts, 2) == [ts[0]];
  }

  // ---------------------------------------------------------------------
  // list

  /** `ts` at the ascending positions `pos` is `r`, and `pos` are exactly the positions of tasks whose status is named `f`. */
  ghost predicate SelectsStatus(r: seq<Task>, ts: seq<Task>, f: string, pos: seq<nat>)
  {
    && |pos| == |r|
    && (forall k :: 0 <= k < |pos| ==> pos[k] < |ts| && r[k] == ts[pos[k]])
    && (forall k1, k2 :: 0 <= k1 < k2 < |pos| ==> pos[k1] < pos[k2])
    && (forall j :: 0 <= j < |ts| ==> (StatusName(ts[j].status) == f <==> j in pos))
  }

  /** Every position moved one place to the right. */
  function Shifted(pos: seq<nat>): (r: seq<nat>)
    ensures |r| == |pos| && forall k :: 0 <= k < |pos| ==> r[k] == pos[k] + 1
  {
    if pos == [] then [] else [pos[0] + 1] + Shifted(pos[1..])
  }

  /** The positions of a tail selection, shifted past the head, with the head's position when it is kept. */
  function ExtendedPositions(ts: seq<Task>, f: string, tail: seq<nat>): seq<nat>
    requires ts != []
  {
    (if StatusName(ts[0].status) == f then [0] else []) + Shifted(tail)
  }

  lemma ExtendedPicks(ts: seq<Task>, f: string, tail: seq<nat>)
    requires ts != []
    requires |tail| == |Filter(ts[1..], f)|
    requires forall k :: 0 <= k < |tail| ==> tail[k] < |ts[1..]| && Filter(ts[1..], f)[k] == ts[1..][tail[k]]
    ensures var pos, r := ExtendedPositions(ts, f, tail), Filter(ts, f);
      |pos| == |r| && forall k :: 0 <= k < |pos| ==> pos[k] < |ts| && r[k] == ts[pos[k]]
  {
    var rest := Filter(ts[1..], f);
    var r := Filter(ts, f);
    var pos := ExtendedPositions(ts, f, tail);
    var d := if StatusName(ts[0].status) == f then 1 else 0;
    assert r == (if d == 1 then [ts[0]] else []) + rest;
    forall k | d <= k < |pos|
      ensures pos[k] < |ts| && r[k] == ts[pos[k]]
    {
      assert pos[k] == tail[k - d] + 1 && r[k] == rest[k - d];
      assert ts[1..][tail[k - d]] == ts[tail[k - d] + 1];
    }
  }

  lemma ExtendedAscends(ts: seq<Task>, f: string, tail: seq<nat>)
    requires ts != []
    requires forall k1, k2 :: 0 <= k1 < k2 < |tail| ==> tail[k1] < tail[k2]
    ensures var pos := ExtendedPositions(ts, f, tail);
      forall k1, k2 :: 0 <= k1 < k2 < |pos| ==> pos[k1] < pos[k2]
  {
    var pos := ExtendedPositions(ts, f, tail);
    var d := if StatusName(ts[0].status) == f then 1 else 0;
    forall k1, k2 | d <= k1 < k2 < |pos|
      ensures pos[k1] < pos[k2]
    {
      assert pos[k1] == tail[k1 - d] + 1 && pos[k2] == tail[k2 - d] + 1;
    }
  }

  lemma ExtendedCovers(ts: seq<Task>, f: string, tail: seq<nat>)
    requires ts != []
    requires forall j :: 0 <= j < |ts[1..]| ==> (StatusName(ts[1..][j].status) == f <==> j in tail)
    ensures var pos := ExtendedPositions(ts, f, tail);
      forall j :: 0 <= j < |ts| ==> (StatusName(ts[j].status) == f <==> j in pos)
  {
    var pos := ExtendedPositions(ts, f, tail);
    var sh := Shifted(tail);
    var d := if StatusName(ts[0].status) == f then 1 else 0;
    assert 0 !in sh;
    forall j | 1 <= j < |ts|
      ensures StatusName(ts[j].status) == f <==> j in pos
    {
      assert ts[j] == ts[1..][j - 1];
      if j - 1 in tail {
        var k :| 0 <= k < |tail| && tail[k] == j - 1;
        assert pos[k + d] == j;
      }
      if j in pos {
        var k :| 0 <= k < |pos| && pos[k] == j;
        assert k >= d && tail[k - d] == j - 1;
      }
    }
  }

  /** The filter keeps exactly the tasks whose status is named `f`, in their original order. */
  lemma {:induction false} FilterIsOrderedSelection(ts: seq<Task>, f: string) returns (pos: seq<nat>)
    ensures SelectsStatus(Filter(ts, f), ts, f, pos)
  {
    if ts == [] {
      pos := [];
    } else {
      var tail := FilterIsOrderedSelection(ts[1..], f);
      ExtendedPicks(ts, f, tail);
      ExtendedAscends(ts, f, tail);
      ExtendedCovers(ts, f, tail);
      pos := ExtendedPositions(ts, f, tail);
    }
  }

  /** A task is listed under `f` exactly when it is in the collection with a status named `f`. */
  lemma FilterMembers(ts: seq<Task>, f: string, t: Task)
    ensures t in Filter(ts, f) <==> t in ts && StatusName(t.status) == f
  {
    var pos := FilterIsOrderedSelection(ts, f);
    var r := Filter(ts, f);
    if t in r {
      var k :| 0 <= k < |r| && r[k] == t;
      assert ts[pos[k]] == t;
    }
    if t in ts && StatusName(t.status) == f {
      var j :| 0 <= j < |ts| && ts[j] == t;
      var k :| 0 <= k < |pos| && pos[k] == j;
      assert r[k] == t;
    }
  }

  /** A filter that names no status lists nothing (rather than failing). */
  lemma {:induction false} UnrecognisedFilterIsEmpty(ts: seq<Task>, f: string)
    requires f != "todo" && f != "in-progress" && f != "done"
    ensures Filter(ts, f) == []
  {
    if ts != [] {
      UnrecognisedFilterIsEmpty(ts[1..], f);
    }
  }

  /** Listing without a filter, or with an empty one, shows the whole collection in order. */
  lemma NoFilterShowsAll(ts: seq<Task>, filter: Option<string>)
    requires filter.None? || filter.value == ""
    ensures ListView(ts, filter) == ts
  {
  }

  /** Listing under a status name shows exactly the tasks with that status. */
  lemma StatusFilterMembers(ts: seq<Task>, s: Status, t: Task)
    ensures t in ListView(ts, Some(StatusName(s))) <==> t in ts && t.status == s
  {
    FilterMembers(ts, StatusName(s), t);
    StatusNameInjective(t.status, s);
  }
}
