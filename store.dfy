/**
 * `TaskDatabase`: the two tables and their AUTOINCREMENT counters, and the
 * statements that change them. The queries over the same state are the
 * functions of module `Queries`, applied to `tasks` and `spins`.
 *
 * The clock that fills `CURRENT_TIMESTAMP` is the `now` parameter.
 */
module Store {
  import opened Wrappers
  import opened Tables

  class TaskDatabase {
    /** The rows of `tasks`, in rowid order. */
    var tasks: seq<Task>
    /** The rows of `spin_history`, in rowid order. */
    var spins: seq<Spin>
    /** The AUTOINCREMENT high-water marks of the two tables. */
    var lastTaskId: int
    var lastSpinId: int

    ghost predicate Valid()
      reads this
    {
      TaskTableOk(tasks, lastTaskId) && SpinTableOk(spins, lastSpinId)
    }

    /** `TaskDatabase(db_path)` on the database file `file`, then `init_database`. */
    constructor Open(file: DbFile)
      requires file.tasks.Some? ==> TaskTableOk(file.tasks.value.rows, file.tasks.value.lastId)
      requires file.spins.Some? ==> SpinTableOk(file.spins.value.rows, file.spins.value.lastId)
      ensures Valid()
      ensures Some(TaskTable(tasks, lastTaskId)) == InitDatabase(file).tasks
      ensures Some(SpinTable(spins, lastSpinId)) == InitDatabase(file).spins
    {
      var f := InitDatabase(file);
      tasks := f.tasks.value.rows;
      lastTaskId := f.tasks.value.lastId;
      spins := f.spins.value.rows;
      lastSpinId := f.spins.value.lastId;
    }

    /**
     * `add_task`: inserts an active row with the given values and returns
     * its id, one past every id the table has ever handed out.
     */
    method AddTask(now: int, taskName: string, category: string := DefaultCategory,
                   priority: int := DefaultPriority) returns (id: int)
      requires Valid()
      modifies this
      ensures Valid()
      ensures id == old(lastTaskId) + 1 && lastTaskId == id
      ensures forall i :: 0 <= i < |old(tasks)| ==> old(tasks)[i].id != id
      ensures tasks == old(tasks) + [Task(id, taskName, category, priority, true, now)]
      ensures spins == old(spins) && lastSpinId == old(lastSpinId)
    {
      id := lastTaskId + 1;
      tasks := tasks + [Task(id, taskName, category, priority, true, now)];
      lastTaskId := id;
    }

    /**
     * `update_task`: builds the SET list from the arguments that are given,
     * in the order name, category, priority, active, and runs the UPDATE
     * only when the list is not empty.
     */
    method UpdateTask(taskId: int, taskName: Option<string> := None, category: Option<string> := None,
                      priority: Option<int> := None, active: Option<bool> := None)
      requires Valid()
      modifies this
      ensures Valid()
      ensures tasks == UpdatedTasks(old(tasks), taskId, TaskChanges(taskName, category, priority, active))
      ensures spins == old(spins) && lastTaskId == old(lastTaskId) && lastSpinId == old(lastSpinId)
    {
      var updates: seq<Assignment> := [];
      ghost var c := TaskChanges(None, None, None, None);
      if taskName.Some? {
        AppendAssignment(updates, c, SetTaskName(taskName.value));
        updates, c := updates + [SetTaskName(taskName.value)], WithAssignment(c, SetTaskName(taskName.value));
      }
      if category.Some? {
        AppendAssignment(updates, c, SetCategory(category.value));
        updates, c := updates + [SetCategory(category.value)], WithAssignment(c, SetCategory(category.value));
      }
      if priority.Some? {
        AppendAssignment(updates, c, SetPriority(priority.value));
        updates, c := updates + [SetPriority(priority.value)], WithAssignment(c, SetPriority(priority.value));
      }
      if active.Some? {
        AppendAssignment(updates, c, SetActive(active.value));
        updates, c := updates + [SetActive(active.value)], WithAssignment(c, SetActive(active.value));
      }
      assert c == TaskChanges(taskName, category, priority, active);
      if updates != [] {
        UpdateWhereMeansUpdated(tasks, taskId, updates, c);
        tasks := UpdateWhere(tasks, taskId, updates);
      } else {
        UpdateWithNoChangesChangesNothing(tasks, taskId);
      }
    }

    /** `delete_task`: `SET active = 0`; the row stays. */
    method DeleteTask(taskId: int)
      requires Valid()
      modifies this
      ensures Valid()
      ensures tasks == Deactivated(old(tasks), taskId)
      ensures spins == old(spins) && lastTaskId == old(lastTaskId) && lastSpinId == old(lastSpinId)
    {
      tasks := UpdateWhere(tasks, taskId, [SetActive(false)]);
    }

    /**
     * `record_spin`: appends a spin of `task_id`, not completed, with the
     * given notes, and returns its fresh id. Nothing checks that the task
     * exists.
     */
    method RecordSpin(taskId: int, now: int, notes: string := "") returns (id: int)
      requires Valid()
      modifies this
      ensures Valid()
      ensures id == old(lastSpinId) + 1 && lastSpinId == id
      ensures forall i :: 0 <= i < |old(spins)| ==> old(spins)[i].id != id
      ensures spins == old(spins) + [Spin(id, taskId, now, false, notes)]
      ensures tasks == old(tasks) && lastTaskId == old(lastTaskId)
    {
      id := lastSpinId + 1;
      spins := spins + [Spin(id, taskId, now, false, notes)];
      lastSpinId := id;
    }

    /** `mark_spin_completed`: stores the flag as 1/0 on the matching spin only. */
    method MarkSpinCompleted(spinId: int, completed: bool := true)
      requires Valid()
      modifies this
      ensures Valid()
      ensures spins == UpdatedSpins(old(spins), spinId, SetCompleted(completed))
      ensures tasks == old(tasks) && lastTaskId == old(lastTaskId) && lastSpinId == old(lastSpinId)
    {
      spins := UpdatedSpins(spins, spinId, SetCompleted(completed));
    }

    /** The notes update issued by the page after a spin is marked done. */
    method SaveNotes(spinId: int, notes: string)
      requires Valid()
      modifies this
      ensures Valid()
      ensures spins == UpdatedSpins(old(spins), spinId, SpinChange.SetNotes(notes))
      ensures tasks == old(tasks) && lastTaskId == old(lastTaskId) && lastSpinId == old(lastSpinId)
    {
      spins := UpdatedSpins(spins, spinId, SpinChange.SetNotes(notes));
    }
  }
}
