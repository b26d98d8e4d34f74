/**
 * The two tables of the task store (`tasks`, `spin_history`), what their
 * UPDATE statements do to the rows, and `init_database`.
 *
 * Timestamps are whole seconds counted from midnight of the day before
 * 0001-01-01, so that the day `t / 86400` is Python's `date.toordinal()`
 * and `(day + 6) % 7` is `date.weekday()` (Monday is 0). Both tables stamp
 * rows with `CURRENT_TIMESTAMP`, which has one-second resolution: two rows
 * may carry the same stamp.
 */
module Tables {
  import opened Wrappers

  /** A row of `tasks`; `active` is the stored 1/0 flag. */
  datatype Task = Task(id: int, taskName: string, category: string, priority: int,
                       active: bool, createdAt: int)

  /** A row of `spin_history`; `completed` is the stored 1/0 flag. */
  datatype Spin = Spin(id: int, taskId: int, spunAt: int, completed: bool, notes: string)

  const DefaultCategory: string := "General"
  const DefaultPriority: int := 1
  const SecondsPerDay: int := 86400

  /** `DATE(spun_at)`, `datetime.date()`: the day a timestamp falls on. */
  function DayOf(t: int): int
  {
    t / SecondsPerDay
  }

  /** `datetime.combine(day, datetime.min.time())`. */
  function Midnight(day: int): int
  {
    day * SecondsPerDay
  }

  /** Comparing a timestamp with a midnight is comparing their days. */
  lemma AtOrAfterMidnight(t: int, day: int)
    ensures t >= Midnight(day) <==> DayOf(t) >= day
  {
    var q, r := t / SecondsPerDay, t % SecondsPerDay;
    assert t == q * SecondsPerDay + r && 0 <= r < SecondsPerDay;
    if q >= day {
      assert q * SecondsPerDay >= day * SecondsPerDay;
    } else {
      assert q + 1 <= day;
      assert (q + 1) * SecondsPerDay <= day * SecondsPerDay;
    }
  }

  predicate IsActive(t: Task)
  {
    t.active
  }

  predicate TaskIdsUnique(ts: seq<Task>)
  {
    forall i, j :: 0 <= i < j < |ts| ==> ts[i].id != ts[j].id
  }

  predicate SpinIdsUnique(ss: seq<Spin>)
  {
    forall i, j :: 0 <= i < j < |ss| ==> ss[i].id != ss[j].id
  }

  /**
   * What `INTEGER PRIMARY KEY AUTOINCREMENT` keeps true of a table: ids are
   * unique and none exceeds the table's high-water mark `lastId`.
   */
  predicate TaskTableOk(ts: seq<Task>, lastId: int)
  {
    TaskIdsUnique(ts) && forall i :: 0 <= i < |ts| ==> ts[i].id <= lastId
  }

  predicate SpinTableOk(ss: seq<Spin>, lastId: int)
  {
    SpinIdsUnique(ss) && forall i :: 0 <= i < |ss| ==> ss[i].id <= lastId
  }

  // ---------------------------------------------------------------- tasks

  /** One `column = ?` item of the SET list `update_task` assembles. */
  datatype Assignment =
    | SetTaskName(name: string)
    | SetCategory(category: string)
    | SetPriority(priority: int)
    | SetActive(active: bool)

  function Assign(t: Task, a: Assignment): Task
  {
    match a
    case SetTaskName(n) => t.(taskName := n)
    case SetCategory(c) => t.(category := c)
    case SetPriority(p) => t.(priority := p)
    case SetActive(b) => t.(active := b)
  }

  /** A row after `SET a1, a2, ...`, the items taken in list order. */
  function SetColumns(t: Task, updates: seq<Assignment>): (r: Task)
    ensures r.id == t.id && r.createdAt == t.createdAt
    decreases |updates|
  {
    if updates == [] then t
    else Assign(SetColumns(t, updates[..|updates| - 1]), updates[|updates| - 1])
  }

  /** `UPDATE tasks SET <updates> WHERE id = ?`, run by the engine. */
  function UpdateWhere(ts: seq<Task>, id: int, updates: seq<Assignment>): seq<Task>
  {
    seq(|ts|, i requires 0 <= i < |ts| => if ts[i].id == id then SetColumns(ts[i], updates) else ts[i])
  }

  /** The keyword arguments of `update_task`: `None` leaves a column alone. */
  datatype TaskChanges = TaskChanges(taskName: Option<string>, category: Option<string>,
                                     priority: Option<int>, active: Option<bool>)

  function Overwrite(t: Task, c: TaskChanges): Task
  {
    t.(taskName := c.taskName.GetOr(t.taskName),
       category := c.category.GetOr(t.category),
       priority := c.priority.GetOr(t.priority),
       active := c.active.GetOr(t.active))
  }

  /**
   * The table after `update_task(id, ...)`: the row with that id takes the
   * given values, nothing else changes, and ids and creation times never do.
   */
  function UpdatedTasks(ts: seq<Task>, id: int, c: TaskChanges): (r: seq<Task>)
    ensures |r| == |ts|
    ensures forall i :: 0 <= i < |ts| ==> r[i].id == ts[i].id && r[i].createdAt == ts[i].createdAt
    ensures forall i :: 0 <= i < |ts| && ts[i].id != id ==> r[i] == ts[i]
  {
    seq(|ts|, i requires 0 <= i < |ts| => if ts[i].id == id then Overwrite(ts[i], c) else ts[i])
  }

  /** `delete_task(id)`: `UPDATE tasks SET active = 0 WHERE id = ?`. */
  function Deactivated(ts: seq<Task>, id: int): seq<Task>
  {
    UpdatedTasks(ts, id, TaskChanges(None, None, None, Some(false)))
  }

  /** The changes `c` with the column `a` sets given as well. */
  function WithAssignment(c: TaskChanges, a: Assignment): TaskChanges
  {
    match a
    case SetTaskName(n) => c.(taskName := Some(n))
    case SetCategory(cat) => c.(category := Some(cat))
    case SetPriority(p) => c.(priority := Some(p))
    case SetActive(b) => c.(active := Some(b))
  }

  /**
   * A SET list that has the effect of `c`, with `a` appended, has the
   * effect of `c` with `a`'s column given too.
   */
  lemma AppendAssignment(updates: seq<Assignment>, c: TaskChanges, a: Assignment)
    requires forall t :: SetColumns(t, updates) == Overwrite(t, c)
    ensures forall t :: SetColumns(t, updates + [a]) == Overwrite(t, WithAssignment(c, a))
  {
    assert (updates + [a])[..|updates|] == updates;
  }

  /** Running a SET list that has the effect of `c` is `update_task` with `c`. */
  lemma UpdateWhereMeansUpdated(ts: seq<Task>, id: int, updates: seq<Assignment>, c: TaskChanges)
    requires forall t :: SetColumns(t, updates) == Overwrite(t, c)
    ensures UpdateWhere(ts, id, updates) == UpdatedTasks(ts, id, c)
  {
  }

  lemma {:induction false} UpdateTwiceIsUpdateOnce(ts: seq<Task>, id: int, c: TaskChanges)
    ensures UpdatedTasks(UpdatedTasks(ts, id, c), id, c) == UpdatedTasks(ts, id, c)
  {
    var once := UpdatedTasks(ts, id, c);
    var twice := UpdatedTasks(once, id, c);
    forall i | 0 <= i < |ts| ensures twice[i] == once[i] {
      if ts[i].id == id {
        assert once[i] == Overwrite(ts[i], c);
      }
    }
  }

  lemma UpdateUnknownIdChangesNothing(ts: seq<Task>, id: int, c: TaskChanges)
    requires forall i :: 0 <= i < |ts| ==> ts[i].id != id
    ensures UpdatedTasks(ts, id, c) == ts
  {
  }

  lemma {:induction false} UpdateWithNoChangesChangesNothing(ts: seq<Task>, id: int)
    ensures UpdatedTasks(ts, id, TaskChanges(None, None, None, None)) == ts
  {
    var r := UpdatedTasks(ts, id, TaskChanges(None, None, None, None));
    forall i | 0 <= i < |ts| ensures r[i] == ts[i] {
      if ts[i].id == id {
        assert r[i] == Overwrite(ts[i], TaskChanges(None, None, None, None));
      }
    }
  }

  // ---------------------------------------------------------------- spins

  /** The one-column UPDATEs issued against `spin_history`. */
  datatype SpinChange = SetCompleted(completed: bool) | SetNotes(notes: string)

  function ApplySpinChange(s: Spin, c: SpinChange): Spin
  {
    match c
    case SetCompleted(b) => s.(completed := b)
    case SetNotes(n) => s.(notes := n)
  }

  /**
   * `UPDATE spin_history SET <column> = ? WHERE id = ?`: only the named
   * column of the matching row changes.
   */
  function UpdatedSpins(ss: seq<Spin>, id: int, c: SpinChange): (r: seq<Spin>)
    ensures |r| == |ss|
    ensures forall i :: 0 <= i < |ss| ==>
              r[i].id == ss[i].id && r[i].taskId == ss[i].taskId && r[i].spunAt == ss[i].spunAt
    ensures forall i :: 0 <= i < |ss| && ss[i].id != id ==> r[i] == ss[i]
    ensures forall i :: 0 <= i < |ss| && !c.SetCompleted? ==> r[i].completed == ss[i].completed
    ensures forall i :: 0 <= i < |ss| && !c.SetNotes? ==> r[i].notes == ss[i].notes
  {
    seq(|ss|, i requires 0 <= i < |ss| => if ss[i].id == id then ApplySpinChange(ss[i], c) else ss[i])
  }

  /** Repeating a spin update (marking completed twice, say) changes nothing more. */
  lemma {:induction false} SpinUpdateTwiceIsOnce(ss: seq<Spin>, id: int, c: SpinChange)
    ensures UpdatedSpins(UpdatedSpins(ss, id, c), id, c) == UpdatedSpins(ss, id, c)
  {
    var once := UpdatedSpins(ss, id, c);
    var twice := UpdatedSpins(once, id, c);
    forall i | 0 <= i < |ss| ensures twice[i] == once[i] {
      if ss[i].id == id {
        assert once[i] == ApplySpinChange(ss[i], c);
      }
    }
  }

  // ---------------------------------------------------------------- init_database

  /** A table as stored in the database file, with its AUTOINCREMENT high-water mark. */
  datatype TaskTable = TaskTable(rows: seq<Task>, lastId: int)
  datatype SpinTable = SpinTable(rows: seq<Spin>, lastId: int)

  /** The database file: each table exists (with its contents) or does not. */
  datatype DbFile = DbFile(tasks: Option<TaskTable>, spins: Option<SpinTable>)

  /**
   * `init_database`: each table that `sqlite_master` does not list is
   * created empty; a table that exists is left exactly as it is.
   */
  function InitDatabase(f: DbFile): (r: DbFile)
    ensures r.tasks.Some? && r.spins.Some?
    ensures f.tasks.Some? ==> r.tasks == f.tasks
    ensures f.spins.Some? ==> r.spins == f.spins
    ensures f.tasks.None? ==> r.tasks.value.rows == []
    ensures f.spins.None? ==> r.spins.value.rows == []
  {
    DbFile(if f.tasks.Some? then f.tasks else Some(TaskTable([], 0)),
           if f.spins.Some? then f.spins else Some(SpinTable([], 0)))
  }

  lemma InitDatabaseIdempotent(f: DbFile)
    ensures InitDatabase(InitDatabase(f)) == InitDatabase(f)
  {
  }
}
