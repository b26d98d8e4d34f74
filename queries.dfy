/**
 * The read queries of `TaskDatabase`, each the relational meaning of its
 * SELECT over the two tables: filters, the inner join of spins with their
 * task, the left join that keeps tasks without spins, GROUP BY, COUNT and
 * SUM, ORDER BY and LIMIT. Where ORDER BY leaves ties open the contracts
 * say "sorted and a permutation", not one particular order.
 */
module Queries {
  import opened Wrappers
  import opened Text
  import opened Seqs
  import opened Sorting
  import opened Tables

  // ---------------------------------------------------------------- get_all_tasks

  /** `ORDER BY priority DESC, task_name`. */
  predicate TaskOrder(a: Task, b: Task)
  {
    a.priority > b.priority || (a.priority == b.priority && StrLe(a.taskName, b.taskName))
  }

  lemma TaskOrderIsTotalPreorder()
    ensures TotalPreorder(TaskOrder)
  {
    forall a: Task, b: Task ensures TaskOrder(a, b) || TaskOrder(b, a) {
      StrLeTotal(a.taskName, b.taskName);
    }
    forall a: Task, b: Task, c: Task | TaskOrder(a, b) && TaskOrder(b, c) ensures TaskOrder(a, c) {
      if a.priority == b.priority == c.priority {
        StrLeTransitive(a.taskName, b.taskName, c.taskName);
      }
    }
  }

  /** The rows `WHERE active = 1` selects, or every row. */
  function TaskRows(ts: seq<Task>, activeOnly: bool): seq<Task>
  {
    if activeOnly then Filter(ts, IsActive) else ts
  }

  /**
   * `get_all_tasks(active_only)`: the active rows (or all rows), highest
   * priority first and by name within a priority.
   */
  function AllTasks(ts: seq<Task>, activeOnly: bool): (r: seq<Task>)
    ensures multiset(r) == multiset(TaskRows(ts, activeOnly))
    ensures forall t :: t in r <==> t in ts && (t.active || !activeOnly)
    ensures SortedBy(r, TaskOrder)
  {
    var rows := TaskRows(ts, activeOnly);
    TaskOrderIsTotalPreorder();
    SortSorted(rows, TaskOrder);
    SortPermutes(rows, TaskOrder);
    var r := Sort(rows, TaskOrder);
    assert forall t :: t in r <==> t in multiset(rows);
    assert forall t :: t in rows <==> t in ts && (t.active || !activeOnly) by {
      forall t | t in ts && (t.active || !activeOnly) ensures t in rows {
        var i :| 0 <= i < |ts| && ts[i] == t;
      }
    }
    r
  }

  /** `get_task_by_id(id)`: the row with that id, active or not. */
  function TaskById(ts: seq<Task>, id: int): (r: Option<Task>)
    ensures r.Some? <==> exists i :: 0 <= i < |ts| && ts[i].id == id
    ensures r.Some? ==> r.value in ts && r.value.id == id
    ensures TaskIdsUnique(ts) ==> forall i :: 0 <= i < |ts| && ts[i].id == id ==> r == Some(ts[i])
  {
    if ts == [] then None
    else if ts[0].id == id then Some(ts[0])
    else
      var r := TaskById(ts[1..], id);
      assert forall i :: 1 <= i < |ts| ==> ts[i] == ts[1..][i - 1];
      r
  }

  /** `get_task_count()`: `COUNT(*) ... WHERE active = 1`. */
  function TaskCount(ts: seq<Task>): (n: nat)
    ensures n <= |ts|
    ensures n == |AllTasks(ts, true)|
  {
    var r := AllTasks(ts, true);
    assert |r| == |multiset(r)|;
    |Filter(ts, IsActive)|
  }

  // ---------------------------------------------------------------- spin history

  /** One row of `SELECT sh.*, t.task_name, t.category, t.priority`. */
  datatype HistoryRow = HistoryRow(id: int, taskId: int, spunAt: int, completed: bool, notes: string,
                                   taskName: string, category: string, priority: int)

  function JoinRow(s: Spin, t: Task): HistoryRow
  {
    HistoryRow(s.id, s.taskId, s.spunAt, s.completed, s.notes, t.taskName, t.category, t.priority)
  }

  /** The rows `sh JOIN tasks t ON sh.task_id = t.id` gives for one spin. */
  function RowsForSpin(s: Spin, ts: seq<Task>): (r: seq<HistoryRow>)
    ensures forall h :: h in r <==> exists t :: t in ts && t.id == s.taskId && h == JoinRow(s, t)
  {
    if ts == [] then []
    else
      var rest := RowsForSpin(s, ts[1..]);
      assert forall t :: t in ts <==> t == ts[0] || t in ts[1..] by {
        assert ts == [ts[0]] + ts[1..];
      }
      (if ts[0].id == s.taskId then [JoinRow(s, ts[0])] else []) + rest
  }

  /**
   * The inner join of `spin_history` with `tasks`: a row for each spin and
   * the task it refers to, carrying that task's current name, category and
   * priority. A spin whose task id matches no task yields no row.
   */
  function Joined(ts: seq<Task>, ss: seq<Spin>): (r: seq<HistoryRow>)
    ensures forall h :: h in r <==>
              exists s, t :: s in ss && t in ts && t.id == s.taskId && h == JoinRow(s, t)
  {
    if ss == [] then []
    else
      var rest := Joined(ts, ss[1..]);
      assert forall s :: s in ss <==> s == ss[0] || s in ss[1..] by {
        assert ss == [ss[0]] + ss[1..];
      }
      RowsForSpin(ss[0], ts) + rest
  }

  /** `ORDER BY sh.spun_at DESC`. */
  predicate LaterFirst(a: HistoryRow, b: HistoryRow)
  {
    a.spunAt >= b.spunAt
  }

  /** How many rows `LIMIT limit` keeps of `n`; SQLite reads a negative limit as none. */
  function LimitCount(limit: int, n: nat): nat
  {
    if 0 <= limit < n then limit else n
  }

  lemma LaterFirstIsTotalPreorder()
    ensures TotalPreorder(LaterFirst)
  {
  }

  /** `ORDER BY sh.spun_at DESC LIMIT limit` over the given rows. */
  function Latest(rows: seq<HistoryRow>, limit: int): (r: seq<HistoryRow>)
    ensures |r| == LimitCount(limit, |rows|)
    ensures SortedBy(r, LaterFirst)
    ensures multiset(r) <= multiset(rows)
    ensures forall x, y :: x in r && y in multiset(rows) - multiset(r) ==> x.spunAt >= y.spunAt
  {
    LaterFirstIsTotalPreorder();
    var r := FirstBy(rows, LimitCount(limit, |rows|), LaterFirst);
    assert forall x, y :: x in r && y in multiset(rows) - multiset(r) ==> LaterFirst(x, y);
    r
  }

  /**
   * `get_spin_history(limit)`: joined rows, latest first, at most `limit` of
   * them. Which rows are kept is decided by `spun_at` alone: every row left
   * out is no later than every row kept. Rows with equal stamps may come in
   * any order.
   */
  function SpinHistory(ts: seq<Task>, ss: seq<Spin>, limit: int): (r: seq<HistoryRow>)
    ensures |r| == LimitCount(limit, |Joined(ts, ss)|)
    ensures SortedBy(r, LaterFirst)
    ensures multiset(r) <= multiset(Joined(ts, ss))
    ensures forall x, y :: x in r && y in multiset(Joined(ts, ss)) - multiset(r) ==> x.spunAt >= y.spunAt
  {
    Latest(Joined(ts, ss), limit)
  }

  // ---------------------------------------------------------------- get_analytics_data

  /** One row of the analytics extract, with `DATE(sh.spun_at) AS spin_date`. */
  datatype AnalyticsRow = AnalyticsRow(spunAt: int, completed: bool, taskName: string,
                                       category: string, priority: int, spinDate: int)

  function AnalyticsRowsSince(rows: seq<HistoryRow>, cutoff: int): (r: seq<AnalyticsRow>)
    ensures forall a :: a in r ==> a.spunAt >= cutoff && a.spinDate == DayOf(a.spunAt)
    ensures forall a :: a in r <==>
              (exists h :: h in rows && h.spunAt >= cutoff &&
                 a == AnalyticsRow(h.spunAt, h.completed, h.taskName, h.category, h.priority, DayOf(h.spunAt)))
  {
    if rows == [] then []
    else
      var h := rows[0];
      var rest := AnalyticsRowsSince(rows[1..], cutoff);
      assert forall x :: x in rows <==> x == h || x in rows[1..] by {
        assert rows == [h] + rows[1..];
      }
      (if h.spunAt >= cutoff
       then [AnalyticsRow(h.spunAt, h.completed, h.taskName, h.category, h.priority, DayOf(h.spunAt))]
       else []) + rest
  }

  /** `ORDER BY sh.spun_at`. */
  predicate EarlierFirst(a: AnalyticsRow, b: AnalyticsRow)
  {
    a.spunAt <= b.spunAt
  }

  /**
   * The query of `get_analytics_data`, with the cutoff instant as a
   * parameter: joined spins stamped at or after the cutoff, earliest first.
   */
  function AnalyticsData(ts: seq<Task>, ss: seq<Spin>, cutoff: int): (r: seq<AnalyticsRow>)
    ensures multiset(r) == multiset(AnalyticsRowsSince(Joined(ts, ss), cutoff))
    ensures SortedBy(r, EarlierFirst)
    ensures forall a :: a in r ==> a.spunAt >= cutoff && a.spinDate == DayOf(a.spunAt)
  {
    var rows := AnalyticsRowsSince(Joined(ts, ss), cutoff);
    SortSorted(rows, EarlierFirst);
    SortPermutes(rows, EarlierFirst);
    var r := Sort(rows, EarlierFirst);
    assert forall a :: a in r ==> a in multiset(rows);
    r
  }

  // ---------------------------------------------------------------- counts

  /** `COUNT(sh.id)` over one task's part of the left join: its spins, or 0. */
  function SpinCount(ss: seq<Spin>, taskId: int): (n: nat)
    ensures n <= |ss|
  {
    if ss == [] then 0 else (if ss[0].taskId == taskId then 1 else 0) + SpinCount(ss[1..], taskId)
  }

  /** `SUM(sh.completed)` over one task's spins (0 standing for an empty sum). */
  function CompletedCount(ss: seq<Spin>, taskId: int): (n: nat)
    ensures n <= SpinCount(ss, taskId)
  {
    if ss == [] then 0
    else (if ss[0].taskId == taskId && ss[0].completed then 1 else 0) + CompletedCount(ss[1..], taskId)
  }

  // ---------------------------------------------------------------- get_task_frequency

  /** One `(task_name, spin_count)` pair. */
  datatype Frequency = Frequency(taskName: string, spinCount: nat)

  /** `GROUP BY t.id` over the active tasks, in table order. */
  function FrequencyRows(ts: seq<Task>, ss: seq<Spin>): (r: seq<Frequency>)
    ensures |r| == |Filter(ts, IsActive)|
    ensures forall f :: f in r <==>
              exists t :: t in ts && t.active && f == Frequency(t.taskName, SpinCount(ss, t.id))
  {
    if ts == [] then []
    else
      var rest := FrequencyRows(ts[1..], ss);
      assert forall t :: t in ts <==> t == ts[0] || t in ts[1..] by {
        assert ts == [ts[0]] + ts[1..];
      }
      (if ts[0].active then [Frequency(ts[0].taskName, SpinCount(ss, ts[0].id))] else []) + rest
  }

  /** `ORDER BY spin_count DESC`. */
  predicate MoreSpun(a: Frequency, b: Frequency)
  {
    a.spinCount >= b.spinCount
  }

  /**
   * `get_task_frequency()`: exactly one pair per active task, a task without
   * spins included with count 0, most spun first.
   */
  function TaskFrequency(ts: seq<Task>, ss: seq<Spin>): (r: seq<Frequency>)
    ensures multiset(r) == multiset(FrequencyRows(ts, ss))
    ensures |r| == |Filter(ts, IsActive)|
    ensures forall f :: f in r <==>
              exists t :: t in ts && t.active && f == Frequency(t.taskName, SpinCount(ss, t.id))
    ensures SortedBy(r, MoreSpun)
  {
    var rows := FrequencyRows(ts, ss);
    SortSorted(rows, MoreSpun);
    SortPermutes(rows, MoreSpun);
    var r := Sort(rows, MoreSpun);
    assert forall f :: f in r <==> f in rows by {
      assert forall f :: f in r <==> f in multiset(rows);
    }
    r
  }

  // ---------------------------------------------------------------- get_completion_rate

  function CompletedSpins(ss: seq<Spin>): (n: nat)
    ensures n <= |ss|
    ensures n == |ss| <==> forall i :: 0 <= i < |ss| ==> ss[i].completed
    ensures n == 0 <==> forall i :: 0 <= i < |ss| ==> !ss[i].completed
  {
    if ss == [] then 0
    else
      var rest := CompletedSpins(ss[1..]);
      assert forall i :: 1 <= i < |ss| ==> ss[i] == ss[1..][i - 1];
      (if ss[0].completed then 1 else 0) + rest
  }

  /** A part over a whole lies in [0, 1], and is 1 or 0 exactly for all or none. */
  lemma RatioBounds(part: nat, whole: nat)
    requires 0 < whole && part <= whole
    ensures 0.0 <= part as real / whole as real <= 1.0
    ensures part as real / whole as real == 1.0 <==> part == whole
    ensures part as real / whole as real == 0.0 <==> part == 0
    ensures (part as real / whole as real) * whole as real == part as real
  {
    var q := part as real / whole as real;
    var t := whole as real;
    assert q * t == part as real;
  }

  /**
   * `get_completion_rate()`: completed spins as a percentage of all spins
   * (those of inactive tasks and of missing tasks included), 0 for an empty
   * history.
   */
  function CompletionRate(ss: seq<Spin>): (rate: real)
    ensures ss == [] ==> rate == 0.0
    ensures ss != [] ==> rate * |ss| as real == 100.0 * CompletedSpins(ss) as real
    ensures 0.0 <= rate <= 100.0
    ensures rate == 100.0 <==> ss != [] && forall i :: 0 <= i < |ss| ==> ss[i].completed
    ensures rate == 0.0 <==> forall i :: 0 <= i < |ss| ==> !ss[i].completed
  {
    var completed, total := CompletedSpins(ss), |ss|;
    if total > 0 then
      var q := completed as real / total as real;
      RatioBounds(completed, total);
      assert (q * 100.0) * total as real == 100.0 * (q * total as real);
      q * 100.0
    else 0.0
  }

  // ---------------------------------------------------------------- get_category_stats

  /** One row: `category`, `total_spins`, `completed_spins` (NULL for a group without spins). */
  datatype CategoryStat = CategoryStat(category: string, total: nat, completed: Option<nat>)

  /** The distinct categories of active tasks, in order of first appearance. */
  function ActiveCategories(ts: seq<Task>): (r: seq<string>)
    ensures Distinct(r)
    ensures forall c :: c in r <==> exists t :: t in ts && t.active && t.category == c
  {
    if ts == [] then []
    else
      var t := ts[|ts| - 1];
      var rest := ActiveCategories(ts[..|ts| - 1]);
      assert forall x :: x in ts <==> x == t || x in ts[..|ts| - 1] by {
        assert ts == ts[..|ts| - 1] + [t];
      }
      if t.active && t.category !in rest then rest + [t.category] else rest
  }

  /** `COUNT(sh.id)` over the group of one category. */
  function CategoryTotal(ts: seq<Task>, ss: seq<Spin>, c: string): nat
  {
    if ts == [] then 0
    else (if ts[0].active && ts[0].category == c then SpinCount(ss, ts[0].id) else 0)
         + CategoryTotal(ts[1..], ss, c)
  }

  /** `SUM(sh.completed)` over the group of one category, when it has spins. */
  function CategoryCompleted(ts: seq<Task>, ss: seq<Spin>, c: string): (n: nat)
    ensures n <= CategoryTotal(ts, ss, c)
  {
    if ts == [] then 0
    else (if ts[0].active && ts[0].category == c then CompletedCount(ss, ts[0].id) else 0)
         + CategoryCompleted(ts[1..], ss, c)
  }

  function CategoryRow(ts: seq<Task>, ss: seq<Spin>, c: string): CategoryStat
  {
    var total := CategoryTotal(ts, ss, c);
    CategoryStat(c, total, if total == 0 then None else Some(CategoryCompleted(ts, ss, c)))
  }

  function CategoryRows(ts: seq<Task>, ss: seq<Spin>, cs: seq<string>): (r: seq<CategoryStat>)
    ensures |r| == |cs|
    ensures forall i :: 0 <= i < |cs| ==> r[i] == CategoryRow(ts, ss, cs[i])
  {
    if cs == [] then [] else [CategoryRow(ts, ss, cs[0])] + CategoryRows(ts, ss, cs[1..])
  }

  /** The `category` column of a result. */
  function CategoriesOf(r: seq<CategoryStat>): (cs: seq<string>)
    ensures |cs| == |r| && forall i :: 0 <= i < |r| ==> cs[i] == r[i].category
  {
    seq(|r|, i requires 0 <= i < |r| => r[i].category)
  }

  /** `ORDER BY total_spins DESC`. */
  predicate MoreTotal(a: CategoryStat, b: CategoryStat)
  {
    a.total >= b.total
  }

  /** The rows of distinct categories are distinct rows. */
  lemma CategoryRowsDistinct(ts: seq<Task>, ss: seq<Spin>, cs: seq<string>)
    requires Distinct(cs)
    ensures Distinct(CategoryRows(ts, ss, cs))
  {
    var rows := CategoryRows(ts, ss, cs);
    forall i, j | 0 <= i < j < |rows| ensures rows[i] != rows[j] {
      assert rows[i].category == cs[i] && rows[j].category == cs[j];
    }
  }

  /** Any reordering of the per-category rows has a row, and the right one, for exactly the categories given. */
  lemma CategoryRowsMembers(ts: seq<Task>, ss: seq<Spin>, cs: seq<string>, r: seq<CategoryStat>)
    requires multiset(r) == multiset(CategoryRows(ts, ss, cs))
    ensures forall i :: 0 <= i < |r| ==> r[i].category in cs && r[i] == CategoryRow(ts, ss, r[i].category)
    ensures forall c :: c in CategoriesOf(r) <==> c in cs
  {
    var rows := CategoryRows(ts, ss, cs);
    forall i | 0 <= i < |r| ensures r[i].category in cs && r[i] == CategoryRow(ts, ss, r[i].category) {
      assert r[i] in multiset(rows);
      assert r[i] in rows;
      var k :| 0 <= k < |rows| && rows[k] == r[i];
      assert r[i].category == cs[k];
    }
    var names := CategoriesOf(r);
    forall c | c in cs ensures c in names {
      var k :| 0 <= k < |cs| && cs[k] == c;
      assert rows[k] in multiset(r);
      assert rows[k] in r;
      var i :| 0 <= i < |r| && r[i] == rows[k];
      assert names[i] == c;
    }
    forall c | c in names ensures c in cs {
      var i :| 0 <= i < |names| && names[i] == c;
      assert r[i].category == c;
    }
  }

  /**
   * What holds of any reordering of the per-category rows: each row is the
   * one its category gets, every category has a row, and no category has two.
   */
  lemma CategoryRowsReordered(ts: seq<Task>, ss: seq<Spin>, cs: seq<string>, r: seq<CategoryStat>)
    requires Distinct(cs)
    requires multiset(r) == multiset(CategoryRows(ts, ss, cs))
    ensures forall i :: 0 <= i < |r| ==> r[i].category in cs && r[i] == CategoryRow(ts, ss, r[i].category)
    ensures forall c :: c in CategoriesOf(r) <==> c in cs
    ensures forall i, j :: 0 <= i < j < |r| ==> r[i].category != r[j].category
  {
    CategoryRowsMembers(ts, ss, cs, r);
    CategoryRowsDistinct(ts, ss, cs);
    PermutationKeepsDistinct(CategoryRows(ts, ss, cs), r);
    forall i, j | 0 <= i < j < |r| ensures r[i].category != r[j].category {
      assert r[i] != r[j];
      assert r[i] == CategoryRow(ts, ss, r[i].category) && r[j] == CategoryRow(ts, ss, r[j].category);
    }
  }

  /**
   * `get_category_stats()`: one row per distinct category of the active
   * tasks. `total` counts the spins of that category's active tasks;
   * `completed` is NULL exactly when there are none, and otherwise counts
   * the completed ones, never more than `total`. Largest total first.
   */
  function CategoryStats(ts: seq<Task>, ss: seq<Spin>): (r: seq<CategoryStat>)
    ensures multiset(r) == multiset(CategoryRows(ts, ss, ActiveCategories(ts)))
    ensures forall c :: c in CategoriesOf(r) <==> c in ActiveCategories(ts)
    ensures forall i, j :: 0 <= i < j < |r| ==> r[i].category != r[j].category
    ensures forall i :: 0 <= i < |r| ==> r[i].total == CategoryTotal(ts, ss, r[i].category)
    ensures forall i :: 0 <= i < |r| ==> (r[i].completed.None? <==> r[i].total == 0)
    ensures forall i :: 0 <= i < |r| && r[i].completed.Some? ==> r[i].completed.value <= r[i].total
    ensures SortedBy(r, MoreTotal)
  {
    var cs := ActiveCategories(ts);
    var rows := CategoryRows(ts, ss, cs);
    SortSorted(rows, MoreTotal);
    SortPermutes(rows, MoreTotal);
    var r := Sort(rows, MoreTotal);
    CategoryRowsReordered(ts, ss, cs, r);
    r
  }

  // ---------------------------------------------------------------- queries after updates

  lemma {:induction false} RowsForSpinIgnoresActive(s: Spin, ts: seq<Task>, id: int)
    ensures RowsForSpin(s, Deactivated(ts, id)) == RowsForSpin(s, ts)
  {
    if ts != [] {
      assert Deactivated(ts, id)[1..] == Deactivated(ts[1..], id);
      RowsForSpinIgnoresActive(s, ts[1..], id);
    }
  }

  lemma {:induction false} JoinedIgnoresActive(ts: seq<Task>, ss: seq<Spin>, id: int)
    ensures Joined(Deactivated(ts, id), ss) == Joined(ts, ss)
  {
    if ss != [] {
      RowsForSpinIgnoresActive(ss[0], ts, id);
      JoinedIgnoresActive(ts, ss[1..], id);
    }
  }

  lemma {:induction false} ActiveCountAfterDeactivate(ts: seq<Task>, id: int)
    requires TaskIdsUnique(ts)
    ensures |Filter(Deactivated(ts, id), IsActive)| ==
            |Filter(ts, IsActive)| - (if exists i :: 0 <= i < |ts| && ts[i].id == id && ts[i].active then 1 else 0)
  {
    if ts != [] {
      var d := Deactivated(ts, id);
      assert d[1..] == Deactivated(ts[1..], id);
      ActiveCountAfterDeactivate(ts[1..], id);
      if ts[0].id == id {
        assert forall i :: 1 <= i < |ts| ==> ts[i].id != id;
        assert Deactivated(ts[1..], id) == ts[1..];
      } else {
        assert (exists i :: 0 <= i < |ts| && ts[i].id == id && ts[i].active) <==>
               (exists i :: 0 <= i < |ts[1..]| && ts[1..][i].id == id && ts[1..][i].active) by {
          forall i | 1 <= i < |ts| ensures ts[i] == ts[1..][i - 1] {}
        }
      }
    }
  }

  /**
   * Soft delete: after `delete_task(id)` the row is still there (inactive),
   * `get_all_tasks()` no longer lists it, the active count drops by one if
   * it was active, and the spin history is exactly what it was.
   */
  lemma SoftDelete(ts: seq<Task>, ss: seq<Spin>, id: int, limit: int)
    requires TaskIdsUnique(ts)
    ensures TaskById(Deactivated(ts, id), id) ==
            (match TaskById(ts, id) case Some(t) => Some(t.(active := false)) case None => None)
    ensures forall t :: t in AllTasks(Deactivated(ts, id), true) ==> t.id != id
    ensures TaskCount(Deactivated(ts, id)) ==
            TaskCount(ts) - (match TaskById(ts, id) case Some(t) => (if t.active then 1 else 0) case None => 0)
    ensures SpinHistory(Deactivated(ts, id), ss, limit) == SpinHistory(ts, ss, limit)
  {
    var d := Deactivated(ts, id);
    assert TaskIdsUnique(d);
    if k :| 0 <= k < |ts| && ts[k].id == id {
      assert d[k] == ts[k].(active := false);
    }
    ActiveCountAfterDeactivate(ts, id);
    JoinedIgnoresActive(ts, ss, id);
  }

  lemma {:induction false} JoinedAppend(ts: seq<Task>, ss: seq<Spin>, s: Spin)
    ensures Joined(ts, ss + [s]) == Joined(ts, ss) + RowsForSpin(s, ts)
  {
    if ss == [] {
      assert [] + [s] == [s];
    } else {
      assert (ss + [s])[1..] == ss[1..] + [s];
      JoinedAppend(ts, ss[1..], s);
    }
  }

  lemma {:induction false} NoTaskNoRows(s: Spin, ts: seq<Task>)
    requires forall t :: t in ts ==> t.id != s.taskId
    ensures RowsForSpin(s, ts) == []
  {
    if ts != [] {
      assert ts[0] in ts;
      NoTaskNoRows(s, ts[1..]);
    }
  }

  /**
   * A spin recorded for a task id that no task has (nothing checks it) never
   * shows up in the history: the inner join drops it.
   */
  lemma OrphanSpinIsNotListed(ts: seq<Task>, ss: seq<Spin>, s: Spin, limit: int)
    requires forall t :: t in ts ==> t.id != s.taskId
    ensures Joined(ts, ss + [s]) == Joined(ts, ss)
    ensures SpinHistory(ts, ss + [s], limit) == SpinHistory(ts, ss, limit)
  {
    JoinedAppend(ts, ss, s);
    NoTaskNoRows(s, ts);
    assert Joined(ts, ss) + [] == Joined(ts, ss);
  }
}
