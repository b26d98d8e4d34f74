/**
 * The daily, weekly and monthly reports and the custom date range, as the
 * figures they are built from: which spins each one takes from the
 * history, and the counts, rankings and bars it lays out. The report text
 * itself (headings, dates, percentages with one decimal) is not modelled;
 * a percentage is kept as its (completed, total) pair.
 *
 * "Today" is the day number `today` (see `Tables`), and the calendar's
 * day of the month is the parameter `dayOfMonth`.
 */
module Reports {
  import opened Seqs
  import opened Sorting
  import opened Text
  import opened Tables
  import opened Tallies
  import Queries
  import Store

  type Row = Queries.HistoryRow

  /** `db.get_spin_history(limit=...)`. */
  function History(db: Store.TaskDatabase, limit: int): seq<Row>
    reads db
  {
    Queries.SpinHistory(db.tasks, db.spins, limit)
  }

  /** `sum(1 for s in rows if s['completed'])`. */
  function CountCompleted(rows: seq<Row>): (n: nat)
    ensures n <= |rows|
    ensures n == |rows| <==> forall i :: 0 <= i < |rows| ==> rows[i].completed
  {
    if rows == [] then 0 else (if rows[0].completed then 1 else 0) + CountCompleted(rows[1..])
  }

  /** `"█" * n`. */
  function Bar(n: int): (b: string)
    ensures |b| == (if n < 0 then 0 else n) && forall i :: 0 <= i < |b| ==> b[i] == '█'
  {
    if n <= 0 then [] else Bar(n - 1) + ['█']
  }

  /** `date.weekday()`: Monday is 0. */
  function Weekday(day: int): int
  {
    (day + 6) % 7
  }

  const DaysOrder: seq<string> := ["Monday", "Tuesday", "Wednesday", "Thursday", "Friday", "Saturday", "Sunday"]

  /** `strftime('%A')`. */
  function DayName(day: int): string
  {
    DaysOrder[Weekday(day)]
  }

  function TaskNamesOf(rows: seq<Row>): seq<string>
  {
    MapSeq(rows, (h: Row) => h.taskName)
  }

  function CategoryNamesOf(rows: seq<Row>): seq<string>
  {
    MapSeq(rows, (h: Row) => h.category)
  }

  function DayNamesOf(rows: seq<Row>): seq<string>
  {
    MapSeq(rows, (h: Row) => DayName(DayOf(h.spunAt)))
  }

  function OutcomesOf(rows: seq<Row>): seq<Outcome>
  {
    MapSeq(rows, (h: Row) => Outcome(h.category, h.completed))
  }

  // ---------------------------------------------------------------- windows

  /**
   * The history rows stamped on `day`: every copy of each, none of any
   * other row, and in history order, so latest first when the history is.
   */
  function SpinsOnDay(history: seq<Row>, day: int): (r: seq<Row>)
    ensures forall i :: 0 <= i < |r| ==> r[i] in history && DayOf(r[i].spunAt) == day
    ensures forall i :: 0 <= i < |history| && DayOf(history[i].spunAt) == day ==> history[i] in r
    ensures forall h :: multiset(r)[h] == if DayOf(h.spunAt) == day then multiset(history)[h] else 0
    ensures SortedBy(history, Queries.LaterFirst) ==> SortedBy(r, Queries.LaterFirst)
    ensures r == [] <==> forall i :: 0 <= i < |history| ==> DayOf(history[i].spunAt) != day
  {
    var p := (h: Row) => DayOf(h.spunAt) == day;
    FilterEmpty(history, p);
    FilterCounts(history, p);
    assert SortedBy(history, Queries.LaterFirst) ==> SortedBy(Filter(history, p), Queries.LaterFirst) by {
      if SortedBy(history, Queries.LaterFirst) {
        FilterKeepsOrder(history, p, Queries.LaterFirst);
      }
    }
    Filter(history, p)
  }

  /**
   * The history rows stamped at or after the instant `start`: every copy of
   * each, none of any other row, and in history order.
   */
  function SpinsSince(history: seq<Row>, start: int): (r: seq<Row>)
    ensures forall i :: 0 <= i < |r| ==> r[i] in history && r[i].spunAt >= start
    ensures forall i :: 0 <= i < |history| && history[i].spunAt >= start ==> history[i] in r
    ensures forall h :: multiset(r)[h] == if h.spunAt >= start then multiset(history)[h] else 0
    ensures SortedBy(history, Queries.LaterFirst) ==> SortedBy(r, Queries.LaterFirst)
    ensures r == [] <==> forall i :: 0 <= i < |history| ==> history[i].spunAt < start
  {
    var p := (h: Row) => h.spunAt >= start;
    FilterEmpty(history, p);
    FilterCounts(history, p);
    assert SortedBy(history, Queries.LaterFirst) ==> SortedBy(Filter(history, p), Queries.LaterFirst) by {
      if SortedBy(history, Queries.LaterFirst) {
        FilterKeepsOrder(history, p, Queries.LaterFirst);
      }
    }
    Filter(history, p)
  }

  /**
   * The history rows whose day lies in `[startDay, endDay]`, both ends
   * included: every copy of each, none of any other row, in history order.
   */
  function SpinsBetween(history: seq<Row>, startDay: int, endDay: int): (r: seq<Row>)
    ensures forall i :: 0 <= i < |r| ==> r[i] in history && startDay <= DayOf(r[i].spunAt) <= endDay
    ensures forall i :: 0 <= i < |history| && startDay <= DayOf(history[i].spunAt) <= endDay ==> history[i] in r
    ensures forall h :: multiset(r)[h] == if startDay <= DayOf(h.spunAt) <= endDay then multiset(history)[h] else 0
    ensures SortedBy(history, Queries.LaterFirst) ==> SortedBy(r, Queries.LaterFirst)
    ensures r == [] <==> forall i :: 0 <= i < |history| ==> !(startDay <= DayOf(history[i].spunAt) <= endDay)
  {
    var p := (h: Row) => startDay <= DayOf(h.spunAt) <= endDay;
    FilterEmpty(history, p);
    FilterCounts(history, p);
    assert SortedBy(history, Queries.LaterFirst) ==> SortedBy(Filter(history, p), Queries.LaterFirst) by {
      if SortedBy(history, Queries.LaterFirst) {
        FilterKeepsOrder(history, p, Queries.LaterFirst);
      }
    }
    Filter(history, p)
  }

  /** Comparing with midnight of `day` keeps exactly the spins dated `day` or later. */
  lemma WindowFromDay(history: seq<Row>, day: int)
    ensures forall h :: h in SpinsSince(history, Midnight(day)) <==> h in history && DayOf(h.spunAt) >= day
  {
    forall h: Row ensures h.spunAt >= Midnight(day) <==> DayOf(h.spunAt) >= day {
      AtOrAfterMidnight(h.spunAt, day);
    }
    forall h | h in history && DayOf(h.spunAt) >= day ensures h in SpinsSince(history, Midnight(day)) {
      var i :| 0 <= i < |history| && history[i] == h;
    }
  }

  // ---------------------------------------------------------------- counting loops

  /** A loop doing `d[k] = d.get(k, 0) + 1` for each key in turn, from an empty dictionary. */
  method TallyKeys(keys: seq<string>) returns (counts: seq<Tally>)
    ensures counts == TallyOf(keys)
    ensures Distinct(Keys(counts)) && Total(counts) == |keys|
    ensures forall k :: Get(counts, k) == Occurrences(keys, k)
    ensures forall k :: k in Keys(counts) <==> k in keys
  {
    counts := [];
    for i := 0 to |keys|
      invariant counts == TallyOf(keys[..i])
    {
      assert keys[..i + 1] == keys[..i] + [keys[i]];
      TallyOfAppend(keys[..i], keys[i]);
      counts := Bump(counts, keys[i]);
    }
    assert keys[..|keys|] == keys;
    TallyOfFacts(keys);
  }

  /** The monthly `category_stats` loop: a spin adds to its category's total, and to its completed count when done. */
  method TallyCategories(spins: seq<Outcome>) returns (stats: seq<CategoryLine>)
    ensures stats == CategoryStatsOf(spins)
    ensures Distinct(Categories(stats)) && LinesOk(stats)
    ensures forall k :: TotalFor(stats, k) == SpinsOf(spins, k) && CompletedFor(stats, k) == CompletedOf(spins, k)
    ensures forall k :: k in Categories(stats) <==> SpinsOf(spins, k) >= 1
  {
    stats := [];
    for i := 0 to |spins|
      invariant stats == CategoryStatsOf(spins[..i])
    {
      assert spins[..i + 1] == spins[..i] + [spins[i]];
      CategoryStatsAppend(spins[..i], spins[i]);
      stats := BumpCategory(stats, spins[i].category, spins[i].done);
    }
    assert spins[..|spins|] == spins;
    CategoryStatsFacts(spins);
  }

  /** Every entry of a sorted count dictionary counts the occurrences of its key. */
  lemma SortedEntriesCount(keys: seq<string>)
    ensures forall i :: 0 <= i < |ByCountDesc(TallyOf(keys))| ==>
              ByCountDesc(TallyOf(keys))[i].count == Occurrences(keys, ByCountDesc(TallyOf(keys))[i].key) >= 1
  {
    var t := TallyOf(keys);
    var r := ByCountDesc(t);
    TallyEntriesCount(keys);
    forall i | 0 <= i < |r| ensures r[i].count == Occurrences(keys, r[i].key) >= 1 {
      assert r[i] in multiset(t);
      var j :| 0 <= j < |t| && t[j] == r[i];
    }
  }

  // ---------------------------------------------------------------- daily

  datatype DailyReport = NoActivityToday | DailyReport(spins: seq<Row>, completed: nat)

  /**
   * `generate_daily_report`: the spins among the latest 1000 that fall on
   * today, latest first, and how many of them were completed. The
   * "no activity" message comes exactly when there are none.
   */
  function GenerateDailyReport(db: Store.TaskDatabase, today: int): (r: DailyReport)
    reads db
    ensures r.NoActivityToday? <==> forall i :: 0 <= i < |History(db, 1000)| ==> DayOf(History(db, 1000)[i].spunAt) != today
    ensures r.DailyReport? ==> r.spins == SpinsOnDay(History(db, 1000), today) && r.spins != []
    ensures r.DailyReport? ==> r.completed == CountCompleted(r.spins) <= |r.spins|
  {
    var history := History(db, 1000);
    var spins := SpinsOnDay(history, today);
    if spins == [] then NoActivityToday else DailyReport(spins, CountCompleted(spins))
  }

  // ---------------------------------------------------------------- weekly

  /** `today - timedelta(days=today.weekday())`. */
  function WeekStart(today: int): int
  {
    today - Weekday(today)
  }

  /** The week starts on the Monday on or before today. */
  lemma WeekStartIsMonday(today: int)
    ensures Weekday(WeekStart(today)) == 0
    ensures WeekStart(today) <= today < WeekStart(today) + 7
  {
    var w := Weekday(today);
    assert (today - w + 6) % 7 == ((today + 6) - w) % 7;
  }

  /** The spins of this week among the latest 1000. */
  function WeekSpins(db: Store.TaskDatabase, today: int): seq<Row>
    reads db
  {
    SpinsSince(History(db, 1000), Midnight(WeekStart(today)))
  }

  datatype DayLine = DayLine(day: string, count: nat, bar: string)

  /** The "Daily Activity" lines: every weekday from Monday, with its count (0 if absent) and a bar that long. */
  method DayLines(activity: seq<Tally>) returns (lines: seq<DayLine>)
    ensures |lines| == 7
    ensures forall d :: 0 <= d < 7 ==>
              lines[d] == DayLine(DaysOrder[d], Get(activity, DaysOrder[d]), Bar(Get(activity, DaysOrder[d])))
  {
    lines := [];
    for d := 0 to 7
      invariant |lines| == d
      invariant forall k :: 0 <= k < d ==>
                  lines[k] == DayLine(DaysOrder[k], Get(activity, DaysOrder[k]), Bar(Get(activity, DaysOrder[k])))
    {
      var count := Get(activity, DaysOrder[d]);
      lines := lines + [DayLine(DaysOrder[d], count, Bar(count))];
    }
  }

  datatype WeeklyReport =
    | NoActivityThisWeek
    | WeeklyReport(weekStart: int, total: nat, completed: nat,
                   mostWorked: seq<Tally>, categories: seq<Tally>, daily: seq<DayLine>)

  /**
   * The weekly figures of a non-empty week: its spins counted by task and
   * by category, the five most worked tasks with their spin counts, every
   * category largest first (the counts summing to the week's spins), and a
   * line for each of the seven weekdays in order.
   */
  method SummariseWeek(week: seq<Row>, weekStart: int) returns (r: WeeklyReport)
    requires week != []
    ensures r.WeeklyReport?
    ensures r.weekStart == weekStart && r.total == |week| && r.completed == CountCompleted(week)
    ensures r.mostWorked == Take(ByCountDesc(TallyOf(TaskNamesOf(week))), 5)
    ensures forall i :: 0 <= i < |r.mostWorked| ==> r.mostWorked[i].count == Occurrences(TaskNamesOf(week), r.mostWorked[i].key)
    ensures r.categories == ByCountDesc(TallyOf(CategoryNamesOf(week))) && Total(r.categories) == r.total
    ensures |r.daily| == 7
    ensures forall d :: 0 <= d < 7 ==>
              && r.daily[d].day == DaysOrder[d]
              && r.daily[d].count == Occurrences(DayNamesOf(week), DaysOrder[d])
              && r.daily[d].bar == Bar(r.daily[d].count)
  {
    var completed := CountCompleted(week);
    var taskCounts := TallyKeys(TaskNamesOf(week));
    var categoryCounts := TallyKeys(CategoryNamesOf(week));
    var mostWorked := Take(ByCountDesc(taskCounts), 5);
    SortedEntriesCount(TaskNamesOf(week));
    var categories := ByCountDesc(categoryCounts);
    TotalByCountDesc(categoryCounts);
    var dailyActivity := TallyKeys(DayNamesOf(week));
    var daily := DayLines(dailyActivity);
    r := WeeklyReport(weekStart, |week|, completed, mostWorked, categories, daily);
  }

  /**
   * `generate_weekly_report`: "no activity" exactly when no spin among the
   * latest 1000 is on or after this week's Monday; otherwise the figures of
   * those spins.
   */
  method GenerateWeeklyReport(db: Store.TaskDatabase, today: int) returns (r: WeeklyReport)
    ensures r.NoActivityThisWeek? <==> WeekSpins(db, today) == []
    ensures r.WeeklyReport? ==>
              && r.weekStart == WeekStart(today)
              && r.total == |WeekSpins(db, today)|
              && r.completed == CountCompleted(WeekSpins(db, today))
              && r.mostWorked == Take(ByCountDesc(TallyOf(TaskNamesOf(WeekSpins(db, today)))), 5)
              && r.categories == ByCountDesc(TallyOf(CategoryNamesOf(WeekSpins(db, today))))
              && Total(r.categories) == r.total
    ensures r.WeeklyReport? ==>
              forall i :: 0 <= i < |r.mostWorked| ==>
                r.mostWorked[i].count == Occurrences(TaskNamesOf(WeekSpins(db, today)), r.mostWorked[i].key)
    ensures r.WeeklyReport? ==> |r.daily| == 7 && forall d :: 0 <= d < 7 ==>
              && r.daily[d].day == DaysOrder[d]
              && r.daily[d].count == Occurrences(DayNamesOf(WeekSpins(db, today)), DaysOrder[d])
              && r.daily[d].bar == Bar(r.daily[d].count)
  {
    var week := WeekSpins(db, today);
    if week == [] {
      return NoActivityThisWeek;
    }
    r := SummariseWeek(week, WeekStart(today));
  }

  // ---------------------------------------------------------------- monthly

  /** `today.replace(day=1)`. */
  function MonthStart(today: int, dayOfMonth: int -> int): int
  {
    today - dayOfMonth(today) + 1
  }

  /** The spins of this month among the latest 10000. */
  function MonthSpins(db: Store.TaskDatabase, today: int, dayOfMonth: int -> int): seq<Row>
    reads db
  {
    SpinsSince(History(db, 10000), Midnight(MonthStart(today, dayOfMonth)))
  }

  /** `set(date(s['spun_at']) for s in rows)`. */
  function DaysOf(rows: seq<Row>): set<int>
  {
    set i | 0 <= i < |rows| :: DayOf(rows[i].spunAt)
  }

  /** There is at least one active day when there are spins, and never more active days than spins. */
  lemma {:induction false} ActiveDaysBounds(rows: seq<Row>)
    ensures |DaysOf(rows)| <= |rows|
    ensures rows != [] ==> |DaysOf(rows)| >= 1
  {
    if rows != [] {
      ActiveDaysBounds(rows[1..]);
      var rest := DaysOf(rows[1..]);
      assert DaysOf(rows) == {DayOf(rows[0].spunAt)} + rest by {
        forall d | d in DaysOf(rows) ensures d in {DayOf(rows[0].spunAt)} + rest {
          var i :| 0 <= i < |rows| && DayOf(rows[i].spunAt) == d;
          if i > 0 {
            assert DayOf(rows[1..][i - 1].spunAt) == d;
          }
        }
        forall d | d in rest ensures d in DaysOf(rows) {
          var i :| 0 <= i < |rows[1..]| && DayOf(rows[1..][i].spunAt) == d;
          assert DayOf(rows[i + 1].spunAt) == d;
        }
      }
      assert DayOf(rows[0].spunAt) in DaysOf(rows);
    }
  }

  /** `(day - 1) // 7 + 1`: the week of the month a day of the month falls in. */
  function WeekNumber(dom: int): (w: int)
    ensures 1 <= dom <= 31 ==> 1 <= w <= 5 && 7 * (w - 1) < dom <= 7 * w
  {
    (dom - 1) / 7 + 1
  }

  /** `f"Week {n}"`. */
  function WeekLabel(n: int): string
  {
    "Week " + IntToDecimal(n)
  }

  function WeekLabelsOf(rows: seq<Row>, dayOfMonth: int -> int): seq<string>
  {
    MapSeq(rows, (h: Row) => WeekLabel(WeekNumber(dayOfMonth(DayOf(h.spunAt)))))
  }

  /**
   * `sorted(weekly_activity.keys())` compares the labels as text; for the
   * single-digit weeks a month has, that is the numeric order.
   */
  lemma {:induction false} WeekLabelOrder(a: int, b: int)
    requires 1 <= a <= 9 && 1 <= b <= 9
    ensures StrLe(WeekLabel(a), WeekLabel(b)) <==> a <= b
  {
    assert IntToDecimal(a) == [DigitChar(a)];
    assert IntToDecimal(b) == [DigitChar(b)];
    StrLeCommonPrefix("Week ", [DigitChar(a)], [DigitChar(b)]);
    assert [DigitChar(a)][1..] == [];
  }

  lemma StrLeIsTotalPreorder()
    ensures TotalPreorder(StrLe)
  {
    forall a, b ensures StrLe(a, b) || StrLe(b, a) {
      StrLeTotal(a, b);
    }
    forall a, b, c | StrLe(a, b) && StrLe(b, c) ensures StrLe(a, c) {
      StrLeTransitive(a, b, c);
    }
  }

  datatype WeekLine = WeekLine(week: string, count: nat, bar: string)

  /**
   * The "Weekly Breakdown": one line per week label present, in text order,
   * each with its count and a bar half as long (rounded down).
   */
  function WeekBreakdown(activity: seq<Tally>): (r: seq<WeekLine>)
    ensures |r| == |activity|
    ensures multiset(MapSeq(r, (l: WeekLine) => l.week)) == multiset(Keys(activity))
    ensures forall i, j :: 0 <= i < j < |r| ==> StrLe(r[i].week, r[j].week)
    ensures forall i :: 0 <= i < |r| ==> r[i].count == Get(activity, r[i].week) && r[i].bar == Bar(r[i].count / 2)
  {
    var keys := Sort(Keys(activity), StrLe);
    SortPermutes(Keys(activity), StrLe);
    StrLeIsTotalPreorder();
    SortSorted(Keys(activity), StrLe);
    var r := seq(|keys|, i requires 0 <= i < |keys| => WeekLine(keys[i], Get(activity, keys[i]), Bar(Get(activity, keys[i]) / 2)));
    assert MapSeq(r, (l: WeekLine) => l.week) == keys;
    r
  }

  /**
   * With days of the month between 1 and 31, every line of the breakdown is
   * labelled "Week 1" to "Week 5".
   */
  lemma WeekLinesOfMonth(rows: seq<Row>, dayOfMonth: int -> int)
    requires forall d :: 1 <= dayOfMonth(d) <= 31
    ensures var r := WeekBreakdown(TallyOf(WeekLabelsOf(rows, dayOfMonth)));
            forall i :: 0 <= i < |r| ==> exists w :: 1 <= w <= 5 && r[i].week == WeekLabel(w)
  {
    var labels := WeekLabelsOf(rows, dayOfMonth);
    var r := WeekBreakdown(TallyOf(labels));
    TallyOfFacts(labels);
    forall i | 0 <= i < |r| ensures exists w :: 1 <= w <= 5 && r[i].week == WeekLabel(w) {
      var weeks := MapSeq(r, (l: WeekLine) => l.week);
      assert weeks[i] == r[i].week;
      assert r[i].week in multiset(Keys(TallyOf(labels)));
      assert r[i].week in labels;
      var k :| 0 <= k < |labels| && labels[k] == r[i].week;
      var w := WeekNumber(dayOfMonth(DayOf(rows[k].spunAt)));
      assert 1 <= w <= 5 && r[i].week == WeekLabel(w);
    }
  }

  /** Reordering the category entries keeps every entry's figures. */
  lemma SortedLinesOk(t: seq<CategoryLine>)
    requires LinesOk(t)
    ensures LinesOk(ByTotalDesc(t))
  {
    var r := ByTotalDesc(t);
    forall i | 0 <= i < |r| ensures 1 <= r[i].total && r[i].completed <= r[i].total {
      assert r[i] in multiset(t);
      var j :| 0 <= j < |t| && t[j] == r[i];
    }
  }

  /** Each week line counts the spins whose label it carries. */
  lemma WeekBreakdownCounts(labels: seq<string>)
    ensures forall i :: 0 <= i < |WeekBreakdown(TallyOf(labels))| ==>
              WeekBreakdown(TallyOf(labels))[i].count == Occurrences(labels, WeekBreakdown(TallyOf(labels))[i].week)
  {
    TallyOfFacts(labels);
  }

  datatype Ranked = Ranked(rank: nat, task: string, count: nat)

  /** `enumerate(entries, 1)`: the entries in order, numbered from 1. */
  function Ranking(entries: seq<Tally>): (r: seq<Ranked>)
    ensures |r| == |entries|
    ensures forall i :: 0 <= i < |r| ==> r[i].rank == i + 1 && r[i].task == entries[i].key && r[i].count == entries[i].count
  {
    seq(|entries|, i requires 0 <= i < |entries| => Ranked(i + 1, entries[i].key, entries[i].count))
  }

  /** Each ranked entry counts the spins of its task. */
  lemma RankedCounts(names: seq<string>, n: nat)
    ensures forall i :: 0 <= i < |Ranking(Take(ByCountDesc(TallyOf(names)), n))| ==>
              Ranking(Take(ByCountDesc(TallyOf(names)), n))[i].count
                == Occurrences(names, Ranking(Take(ByCountDesc(TallyOf(names)), n))[i].task)
  {
    SortedEntriesCount(names);
  }

  datatype MonthlyReport =
    | NoActivityThisMonth
    | MonthlyReport(monthStart: int, total: nat, completed: nat, activeDays: nat, daysSoFar: int,
                    topTasks: seq<Ranked>, categories: seq<CategoryLine>, weeks: seq<WeekLine>)

  /**
   * The monthly figures of a non-empty month: the number of distinct days
   * with a spin (at least one and at most the number of spins, so the
   * average per day is defined); the ten most spun tasks numbered from 1
   * with their spin counts; the categories by total, each with at least
   * one spin and no more completions than spins; and the spins per week of
   * the month.
   */
  method SummariseMonth(month: seq<Row>, monthStart: int, daysSoFar: int, dayOfMonth: int -> int)
    returns (r: MonthlyReport)
    requires month != []
    requires forall d :: 1 <= dayOfMonth(d) <= 31
    ensures r.MonthlyReport?
    ensures r.monthStart == monthStart && r.daysSoFar == daysSoFar
    ensures r.total == |month| && r.completed == CountCompleted(month)
    ensures r.activeDays == |DaysOf(month)| && 1 <= r.activeDays <= r.total
    ensures r.topTasks == Ranking(Take(ByCountDesc(TallyOf(TaskNamesOf(month))), 10)) && |r.topTasks| <= 10
    ensures forall i :: 0 <= i < |r.topTasks| ==> r.topTasks[i].count == Occurrences(TaskNamesOf(month), r.topTasks[i].task)
    ensures r.categories == ByTotalDesc(CategoryStatsOf(OutcomesOf(month))) && LinesOk(r.categories)
    ensures r.weeks == WeekBreakdown(TallyOf(WeekLabelsOf(month, dayOfMonth)))
    ensures forall i :: 0 <= i < |r.weeks| ==> r.weeks[i].count == Occurrences(WeekLabelsOf(month, dayOfMonth), r.weeks[i].week)
    ensures forall i :: 0 <= i < |r.weeks| ==> exists w :: 1 <= w <= 5 && r.weeks[i].week == WeekLabel(w)
  {
    var completed := CountCompleted(month);
    var activeDays := |DaysOf(month)|;
    ActiveDaysBounds(month);

    var taskCounts := TallyKeys(TaskNamesOf(month));
    var top := Take(ByCountDesc(taskCounts), 10);
    var topTasks := Ranking(top);
    RankedCounts(TaskNamesOf(month), 10);

    var stats := TallyCategories(OutcomesOf(month));
    var categories := ByTotalDesc(stats);
    SortedLinesOk(stats);

    var weeklyActivity := TallyKeys(WeekLabelsOf(month, dayOfMonth));
    var weeks := WeekBreakdown(weeklyActivity);
    WeekBreakdownCounts(WeekLabelsOf(month, dayOfMonth));
    WeekLinesOfMonth(month, dayOfMonth);
    r := MonthlyReport(monthStart, |month|, completed, activeDays, daysSoFar, topTasks, categories, weeks);
  }

  /**
   * `generate_monthly_report`: "no activity" exactly when no spin among the
   * latest 10000 is on or after the first of this month; otherwise the
   * figures of those spins, with today's day of the month as the number
   * of days so far.
   */
  method GenerateMonthlyReport(db: Store.TaskDatabase, today: int, dayOfMonth: int -> int) returns (r: MonthlyReport)
    requires forall d :: 1 <= dayOfMonth(d) <= 31
    ensures r.NoActivityThisMonth? <==> MonthSpins(db, today, dayOfMonth) == []
    ensures r.MonthlyReport? ==>
              && r.monthStart == MonthStart(today, dayOfMonth)
              && r.total == |MonthSpins(db, today, dayOfMonth)|
              && r.completed == CountCompleted(MonthSpins(db, today, dayOfMonth))
              && r.activeDays == |DaysOf(MonthSpins(db, today, dayOfMonth))|
              && 1 <= r.activeDays <= r.total
              && r.daysSoFar == dayOfMonth(today)
    ensures r.MonthlyReport? ==>
              && r.topTasks == Ranking(Take(ByCountDesc(TallyOf(TaskNamesOf(MonthSpins(db, today, dayOfMonth)))), 10))
              && |r.topTasks| <= 10
              && forall i :: 0 <= i < |r.topTasks| ==>
                   r.topTasks[i].count == Occurrences(TaskNamesOf(MonthSpins(db, today, dayOfMonth)), r.topTasks[i].task)
    ensures r.MonthlyReport? ==>
              && r.categories == ByTotalDesc(CategoryStatsOf(OutcomesOf(MonthSpins(db, today, dayOfMonth))))
              && LinesOk(r.categories)
    ensures r.MonthlyReport? ==>
              && r.weeks == WeekBreakdown(TallyOf(WeekLabelsOf(MonthSpins(db, today, dayOfMonth), dayOfMonth)))
              && forall i :: 0 <= i < |r.weeks| ==>
                   r.weeks[i].count == Occurrences(WeekLabelsOf(MonthSpins(db, today, dayOfMonth), dayOfMonth), r.weeks[i].week)
    ensures r.MonthlyReport? ==>
              forall i :: 0 <= i < |r.weeks| ==> exists w :: 1 <= w <= 5 && r.weeks[i].week == WeekLabel(w)
  {
    var month := MonthSpins(db, today, dayOfMonth);
    if month == [] {
      return NoActivityThisMonth;
    }
    r := SummariseMonth(month, MonthStart(today, dayOfMonth), dayOfMonth(today), dayOfMonth);
  }

  // ---------------------------------------------------------------- custom range

  datatype CustomReport = NoDataInRange | CustomReport(spins: seq<Row>, completed: nat)

  /**
   * The custom date range of the reports dashboard: the spins among the
   * latest 10000 dated from `startDay` to `endDay` inclusive, and how many
   * of them were completed; a warning instead when there are none.
   */
  function GenerateCustomReport(db: Store.TaskDatabase, startDay: int, endDay: int): (r: CustomReport)
    reads db
    ensures r.NoDataInRange? <==>
              forall i :: 0 <= i < |History(db, 10000)| ==> !(startDay <= DayOf(History(db, 10000)[i].spunAt) <= endDay)
    ensures r.CustomReport? ==> r.spins == SpinsBetween(History(db, 10000), startDay, endDay) && r.spins != []
    ensures r.CustomReport? ==> r.completed == CountCompleted(r.spins) <= |r.spins|
  {
    var spins := SpinsBetween(History(db, 10000), startDay, endDay);
    if spins == [] then NoDataInRange else CustomReport(spins, CountCompleted(spins))
  }
}
