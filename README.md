# Daily task spinner: the store, the HTTP cursor, the reports and the spinner helpers

The daily task spinner keeps a weighted list of tasks. A spin picks one of the
active tasks at random, with the task's priority as its weight. Each spin is
recorded with its time and can later be marked completed and given notes.
Reports summarise the recorded spins for one day, the current week, the
current month or a custom date range.

This Dafny project models four parts of that system:

- **The store** (`TaskDatabase`, modules `Tables`, `Queries`, `Store`).
  - It holds two tables, `tasks` and `spin_history`, each with its auto-increment counter.
  - The mutating operations (`add_task`, `update_task`, `delete_task`, `record_spin`, `mark_spin_completed`, and the notes update issued from the page) are methods of the class `Store.TaskDatabase`. Each one states its whole new state.
  - Every `SELECT` is a pure function over the two tables, stating its relational meaning:
    - the filter;
    - the inner join that drops orphan spins;
    - the left join that keeps tasks without spins;
    - `COUNT` and `SUM` per group;
    - `ORDER BY` with `LIMIT`.
  - `ORDER BY` is modelled as a stable sort. The contracts promise only what SQL promises: sortedness, a permutation, and for `LIMIT` that no row left out comes before a row kept. Tied rows may come in any order.
- **The HTTP cursor** (`TursoHTTPCursor`, module `TursoHttp`). It sends statements to a libSQL server over the Hrana HTTP pipeline. The model covers:
  - how parameters are encoded;
  - the endpoint URL normaliser;
  - how cells are decoded;
  - the buffered `fetchone`/`fetchall` state machine, as the class `TursoHttp.TursoHttpCursor`.
- **The reports** (module `Reports`, over the count dictionaries of module `Tallies`). The model covers:
  - the daily, weekly, monthly and custom date windows;
  - the counting loops that fill the dictionaries;
  - the stable sort by count and the top-N cut;
  - the seven weekday lines and the week-of-month buckets.
- **The spinner helpers** (module `Spinner`):
  - the segment colours;
  - the weighted choice of the next task, where only the fact that it returns one of the given tasks is modelled.

Time is kept as whole seconds counted from midnight of day 0 of the proleptic Gregorian calendar. Day numbers therefore match Python's `date.toordinal()`:

- `DayOf(t)` is the date of an instant.
- `Weekday(d) = (d + 6) % 7` is `date.weekday()`.
- The day of the month is a calendar parameter `dayOfMonth`.
- "Now" and "today" are parameters.

Behaviour the model keeps exactly as the code has it:

- `add_task` accepts an empty name.
- `record_spin` does not check that the task exists.
- `mark_spin_completed(id, False)` sets a completed spin back to not completed.
- `get_category_stats` reports `None`, not 0, as the completed count of a category with no spins.

## Model

| member | source | states |
|---|---|---|
| Tables.AtOrAfterMidnight | reports.py:36-40 | an instant is at or after midnight of a day exactly when its date is that day or later |
| Tables.UpdatedTasks | database.py:318-345 | the task table keeps its length, ids and creation times; rows with another id are unchanged |
| Tables.AppendAssignment | database.py:326-337 | appending one `col = ?` assignment to the list extends the overwrite of exactly that field |
| Tables.UpdateWhereMeansUpdated | database.py:339-342 | running the built `UPDATE ... SET ... WHERE id = ?` equals overwriting the given non-None fields on the matching row |
| Tables.UpdateTwiceIsUpdateOnce | database.py:318-352 | applying the same task update (or soft delete) twice equals applying it once |
| Tables.UpdateUnknownIdChangesNothing | database.py:341-342 | an update whose id matches no task leaves the table unchanged |
| Tables.UpdateWithNoChangesChangesNothing | database.py:339 | an update with every field None leaves the table unchanged |
| Tables.UpdatedSpins | database.py:391-399 | a spin update keeps length and ids, changes only the matching row, and changes only the one column it sets |
| Tables.SpinUpdateTwiceIsOnce | database.py:391-399 | marking a spin (or saving its notes) twice equals doing it once |
| Tables.InitDatabase | database.py:212-250 | both tables exist afterwards; an existing table is kept as it was, a missing one is created empty |
| Tables.InitDatabaseIdempotent | database.py:212-250 | initialising an initialised database changes nothing |
| Seqs.FilterCounts | reports.py:10 | a list comprehension with a condition keeps every copy of an element that passes and none of one that does not |
| Seqs.FilterKeepsOrder | reports.py:10 | a list comprehension with a condition keeps the order of its input |
| Seqs.FilterEmpty | reports.py:10-12 | the comprehension is empty exactly when no element passes |
| Sorting.SortPermutes | database.py:286 | the sort standing for `ORDER BY` and `sorted` returns a permutation of its input |
| Sorting.SortSorted | database.py:286 | under a total preorder the sort returns its input in order |
| Sorting.SortStable | reports.py:66 | elements that compare equal keep their input order, as Python's `sorted` does |
| Sorting.PrefixComesFirst | database.py:409 | a prefix of a sorted sequence is sorted and no element after it comes before an element in it |
| Sorting.FirstBy | database.py:408-409 | `ORDER BY ... LIMIT n`: n elements of the input, in order, none left out coming before one kept |
| Text.ParseIntOfDecimal | database.py:40 | `int(str(i)) == i` for every integer |
| Queries.TaskOrderIsTotalPreorder | database.py:286 | priority descending, then name ascending, is a total preorder |
| Queries.AllTasks | database.py:281-308 | a permutation of the active rows (or all rows), containing exactly them, sorted by priority descending then name |
| Queries.TaskById | database.py:310-316 | a row exactly when some task has the id; with unique ids it is that task's row |
| Queries.TaskCount | database.py:354-366 | the number of active tasks, which is the length of `get_all_tasks(True)` |
| Queries.RowsForSpin | database.py:405-407 | a spin joins exactly with the tasks whose id it references, carrying their current name, category and priority |
| Queries.Joined | database.py:405-407 | the inner join holds a row exactly when a spin references an existing task |
| Queries.LaterFirstIsTotalPreorder | database.py:408 | `spun_at` descending is a total preorder |
| Queries.Latest | database.py:408-409 | `ORDER BY spun_at DESC LIMIT n` on any rows: `min(n, rows)` rows drawn from them, latest first, no row left out later than a row kept |
| Queries.SpinHistory | database.py:401-415 | `min(limit, joined)` rows drawn from the join, latest first, no row left out later than a row kept |
| Queries.AnalyticsRowsSince | database.py:425-437 | exactly the joined spins at or after the cutoff, each with its `spin_date` |
| Queries.AnalyticsData | database.py:417-453 | a permutation of those rows sorted by `spun_at` ascending |
| Queries.SpinCount | database.py:459-461 | a task's spin count is at most the number of spins |
| Queries.CompletedCount | database.py:500 | a task's completed count is at most its spin count |
| Queries.FrequencyRows | database.py:458-465 | one (name, count) pair per active task, zero counts included |
| Queries.TaskFrequency | database.py:455-476 | a permutation of one pair per active task, containing exactly those pairs, sorted by count descending |
| Queries.CompletedSpins | database.py:482-484 | the completed count is at most the total, equal to it exactly when all spins are completed, 0 exactly when none is |
| Queries.RatioBounds | database.py:491 | `completed / total` with 0 < total and completed ≤ total times total gives completed back, lies in [0, 1], is 1 exactly when they are equal and 0 exactly when nothing is completed |
| Queries.CompletionRate | database.py:478-491 | completed spins / all spins · 100 (rate · total = 100 · completed); 0 with no spins, always within [0, 100], 100 exactly when every spin is completed, 0 exactly when none is |
| Queries.ActiveCategories | database.py:501-504 | the distinct categories of the active tasks, and only those |
| Queries.CategoryCompleted | database.py:500 | a category's completed count is at most its total |
| Queries.CategoryRows | database.py:496-506 | one row per category, with that category's figures |
| Queries.CategoryRowsDistinct | database.py:504 | grouping by distinct categories gives distinct rows |
| Queries.CategoryRowsMembers | database.py:504-505 | any reordering of the grouped rows has a row, with that category's own figures, for exactly the categories grouped |
| Queries.CategoryRowsReordered | database.py:504-505 | any reordering of the grouped rows has exactly the categories given, each with its own figures, none twice |
| Queries.CategoryStats | database.py:493-517 | one row per category of the active tasks; `completed` is None exactly when the total is 0 and otherwise at most the total; sorted by total descending |
| Queries.RowsForSpinIgnoresActive | database.py:405-407 | the join does not look at `active`: deactivating a task keeps its spins' rows |
| Queries.JoinedIgnoresActive | database.py:405-407 | the whole join is unchanged by a soft delete |
| Queries.ActiveCountAfterDeactivate | database.py:347-357 | deactivating an active task lowers the active count by one, and an inactive or unknown one leaves it |
| Queries.SoftDelete | database.py:347-352 | after `delete_task` the row is still returned by id with `active` false, is gone from `get_all_tasks(True)`, the count drops accordingly, and the history is unchanged |
| Queries.JoinedAppend | database.py:368-389 | recording a spin appends exactly its join rows |
| Queries.NoTaskNoRows | database.py:407 | a spin whose task does not exist joins with nothing |
| Queries.OrphanSpinIsNotListed | database.py:368-415 | a spin recorded for a missing task never shows up in the history |
| Store.TaskDatabase.Open | database.py:182-250 | the tables are those initialisation leaves, and the table invariant holds |
| Store.TaskDatabase.AddTask | database.py:252-279 | the id is the counter plus one and is used by no existing task; the row with the given name, category, priority, active, is appended; nothing else changes |
| Store.TaskDatabase.UpdateTask | database.py:318-345 | the task table becomes the update of exactly the non-None fields on the matching row; spins and counters are unchanged |
| Store.TaskDatabase.DeleteTask | database.py:347-352 | the matching task is deactivated and kept; nothing else changes |
| Store.TaskDatabase.RecordSpin | database.py:368-389 | a spin with a fresh id, the given task id and notes, not completed, is appended; the tasks are unchanged |
| Store.TaskDatabase.MarkSpinCompleted | database.py:391-399 | only the matching spin's `completed` changes |
| Store.TaskDatabase.SaveNotes | app.py:189-196 | only the matching spin's `notes` changes |
| TursoHttp.EncodeParam | database.py:38-52 | `null` exactly for None, `integer` exactly for int and bool, `blob` exactly for bytes, carried under `base64` and never under `value` |
| TursoHttp.EncodeArgs | database.py:37-52 | one argument per parameter, in order |
| TursoHttp.DecodeCellAsWritten | database.py:113-122 | the decoder as written: a blob carried under `base64` fails; other types decode by their scalar branch |
| TursoHttp.DecodeCell | database.py:113-122 | a blob decodes exactly when its `base64` text decodes, to those bytes; other types as written |
| TursoHttp.EncodeThenDecode | database.py:37-52 | every parameter other than a bool decodes back to the value SQLite stores for it |
| TursoHttp.ParseBoolTextFails | database.py:40 | `int("True")` and `int("False")` fail |
| TursoHttp.BoolDoesNotRoundTrip | database.py:39-40 | a bool parameter is sent as an integer that cannot be decoded back |
| TursoHttp.BlobFailsAsWritten | database.py:47-49 | an encoded blob fails the decoder as written and round-trips through the corrected one |
| TursoHttp.DecodeRows | database.py:111-123 | the rows decode exactly when every cell does, and then keep their shape and hold each cell's value (blob cells read from `base64`, see Findings) |
| TursoHttp.ColumnNames | database.py:105-106 | the names exactly when every column has one, in order |
| TursoHttp.ReplaceWithoutOccurrence | database.py:83 | `str.replace` leaves text without the pattern unchanged |
| TursoHttp.ReplacedPrefix | database.py:83 | replacing cannot create a prefix that avoids the replacement's first character |
| TursoHttp.NoOccurrenceAfterReplace | database.py:83 | after replacing `libsql://` no occurrence of it is left |
| TursoHttp.NoSchemeIn | database.py:83 | text without an `l` has no `libsql://` |
| TursoHttp.PathIsLeftAlone | database.py:75-83 | the replacement does not touch the `/v2/pipeline` path |
| TursoHttp.SchemeMeetsPath | database.py:75-83 | the one short URL where the scheme and the path meet |
| TursoHttp.ReplaceKeepsPipelinePath | database.py:75-83 | the replacement keeps a URL ending in `/v2/pipeline` |
| TursoHttp.PipelineUrlEndsWithPath | database.py:75-83 | the normalised URL always ends in `/v2/pipeline` |
| TursoHttp.PipelineUrlHasNoLibsqlScheme | database.py:75-83 | the normalised URL never contains `libsql://` |
| TursoHttp.PipelineUrlIdempotent | database.py:75-83 | normalising a normalised URL changes nothing |
| TursoHttp.ZipConsKeys | database.py:151 | one more (name, value) pair in front adds exactly its name to the keys |
| TursoHttp.ZipConsValues | database.py:151 | one more pair in front keeps the later pairs' values and gives its own name its value unless a later pair has that name |
| TursoHttp.Zipped | database.py:151 | `dict(zip(columns, row))` has a key for exactly the names paired with a value (the shorter list decides); a name maps to the value of its last pair |
| TursoHttp.TursoHttpCursor.constructor | database.py:27-33 | no last row id, row count -1, empty buffer, index 0 |
| TursoHttp.TursoHttpCursor.Execute | database.py:35-142 | the request carries the normalised URL and one encoded argument per parameter; a transport failure changes nothing; otherwise the buffer is reset and, for an `ok` first result, holds the decoded rows, each as wide as the row received, and `rowcount` their number, or stays empty when a name or cell fails |
| TursoHttp.TursoHttpCursor.FetchOne | database.py:144-153 | the next buffered row, shaped by the row factory, advancing the index; None once the buffer is spent |
| TursoHttp.TursoHttpCursor.FetchAll | database.py:155-160 | every row not yet handed out, in order, and the buffer is spent |
| Tallies.Occurrences | reports.py:55-63 | a key occurs at most as often as there are keys |
| Tallies.TallyOfAppend | reports.py:61-62 | one more loop step bumps the dictionary once |
| Tallies.OccurrencesAppend | reports.py:61-62 | one more key adds one occurrence of itself only |
| Tallies.BumpFacts | reports.py:62 | `d[k] = d.get(k, 0) + 1` raises k's count by one and no other, adds k as a key, keeps keys distinct and counts positive |
| Tallies.GetAbsent | reports.py:81 | `d.get(k, 0)` is 0 for a missing key |
| Tallies.GetEntry | reports.py:145 | looking up an entry's key gives its count |
| Tallies.TallyOfFacts | reports.py:55-63 | the dictionary holds each key once, counts its occurrences, has exactly the keys seen, and its counts sum to the number of spins |
| Tallies.TallyEntriesCount | reports.py:55-63 | every entry counts the spins with its key, at least one |
| Tallies.ByCountDesc | reports.py:66 | `sorted(items, key=count, reverse=True)`: a permutation, largest count first, ties in dictionary order |
| Tallies.TotalInsert | reports.py:70-73 | inserting an entry into a sequence adds its count to the sum |
| Tallies.TotalSort | reports.py:70-73 | sorting keeps the sum of the counts |
| Tallies.TotalByCountDesc | reports.py:70-73 | the category counts still sum to the week's spins after sorting |
| Tallies.Take | reports.py:67 | `s[:n]`: a prefix of length `min(n, len(s))` |
| Tallies.CategoryStatsAppend | reports.py:125-131 | one more loop step updates one category's figures |
| Tallies.SpinsOf | reports.py:129 | a category's spins are at most all spins |
| Tallies.CompletedOf | reports.py:130-131 | a category's completed spins are at most its spins |
| Tallies.OutcomeCountsAppend | reports.py:125-131 | one more spin adds to its own category's total, and to its completed count when done |
| Tallies.AbsentCategory | reports.py:127 | a category not yet seen has no figures |
| Tallies.BumpCategoryMembers | reports.py:127-128 | after one spin the categories present are the earlier ones plus the spin's own |
| Tallies.BumpCategoryKeys | reports.py:127-128 | a new category is added once at the end, and keys stay distinct |
| Tallies.BumpCategoryCounts | reports.py:129-131 | only the spin's category's figures change, by one spin and one completion when done |
| Tallies.BumpCategoryOk | reports.py:129-131 | every category keeps at least one spin and no more completions than spins |
| Tallies.CategoryEntry | reports.py:134 | an entry's figures are those looked up under its category |
| Tallies.CategoryStatsFacts | reports.py:124-131 | distinct categories, exactly those with a spin, each with total equal to its spins and completed equal to its completed spins |
| Tallies.CategoryEntriesCount | reports.py:124-131 | every entry carries its category's spin and completion counts |
| Tallies.ByTotalDesc | reports.py:134 | `sorted(items, key=total, reverse=True)`: a permutation, most spins first, ties in dictionary order |
| Reports.CountCompleted | reports.py:20 | the completed count is at most the number of spins, and equal to it exactly when all are completed |
| Reports.Bar | reports.py:84 | `"█" * n`: n bar characters, none for n ≤ 0 |
| Reports.SpinsOnDay | reports.py:10 | the history rows dated today, each as many times as in the history and no other row, in history order; empty exactly when no row is dated today |
| Reports.SpinsSince | reports.py:40 | the history rows at or after the window start, each as many times as in the history and no other row, in history order; empty exactly when no row is that late |
| Reports.SpinsBetween | reports.py:203-206 | the history rows dated from start to end inclusive, each as many times as in the history and no other row, in history order; empty exactly when no row is in the range |
| Reports.WindowFromDay | reports.py:35-40 | a spin is in the window exactly when its date is on or after the window's first day |
| Reports.TallyKeys | reports.py:55-63 | the counting loop leaves the count dictionary of its keys: distinct keys, exactly those seen, each counting its occurrences, summing to the number of spins |
| Reports.TallyCategories | reports.py:124-131 | the per-category loop leaves each category seen with its spins and completions, completed ≤ total |
| Reports.SortedEntriesCount | reports.py:66-68 | after sorting, every entry still counts its task's spins |
| Reports.GenerateDailyReport | reports.py:6-32 | "no activity" exactly when no spin is dated today; otherwise today's spins and a completed count at most their number |
| Reports.WeekStartIsMonday | reports.py:35-36 | the week starts on the Monday on or before today |
| Reports.DayLines | reports.py:80-86 | seven lines Monday to Sunday, each with its day's count (0 when absent) and a bar that long |
| Reports.SummariseWeek | reports.py:51-86 | for a non-empty week: its spin and completed counts; the five most worked tasks with their spin counts; categories sorted by count and summing to the week's spins; seven weekday lines in order with their counts |
| Reports.GenerateWeeklyReport | reports.py:34-88 | "no activity" exactly when the week is empty; the five most worked tasks with their spin counts; categories sorted by count and summing to the week's spins; seven weekday lines in order with their counts |
| Reports.ActiveDaysBounds | reports.py:110-112 | the distinct active days are at least one and at most the number of spins |
| Reports.WeekNumber | reports.py:140 | days 1 to 31 fall in weeks 1 to 5, and week w holds days 7(w-1)+1 to 7w |
| Reports.WeekLabelOrder | reports.py:144 | for single-digit weeks, text order of the labels is numeric order |
| Reports.StrLeIsTotalPreorder | reports.py:144 | the text order of `sorted` on strings is a total preorder |
| Reports.WeekBreakdown | reports.py:143-147 | one line per week label present, in text order, with its count and a bar half as long |
| Reports.WeekLinesOfMonth | reports.py:138-147 | with days of the month in 1..31, every breakdown line is labelled Week 1 to Week 5 |
| Reports.SortedLinesOk | reports.py:133-136 | sorting the categories keeps total ≥ 1 and completed ≤ total |
| Reports.WeekBreakdownCounts | reports.py:138-147 | each week line counts the spins in that week |
| Reports.Ranking | reports.py:121 | `enumerate(entries, 1)`: entries in order, numbered from 1 |
| Reports.RankedCounts | reports.py:114-122 | each ranked task counts its spins |
| Reports.SummariseMonth | reports.py:104-147 | for a non-empty month: 1 ≤ active days ≤ spins; at most ten ranked tasks with their counts; categories by total with total ≥ 1 and completed ≤ total; week lines counting their spins, each labelled Week 1 to Week 5 |
| Reports.GenerateMonthlyReport | reports.py:90-149 | "no activity" exactly when the month is empty; 1 ≤ active days ≤ spins; at most ten ranked tasks with their counts; categories by total with total ≥ 1 and completed ≤ total; week lines counting their spins, each labelled Week 1 to Week 5 |
| Reports.GenerateCustomReport | reports.py:202-217 | a warning exactly when no spin is dated in the range (both ends included); otherwise those spins and a completed count at most their number |
| Spinner.PalettePrefix | spinner.py:103-104 | `base_colors[:n]`: the first n palette colours for 0 ≤ n ≤ 12, a shorter prefix for negative n |
| Spinner.Hue | spinner.py:108 | a hue lies in [0, 360) |
| Spinner.HueIncreases | spinner.py:107-108 | segments further round the wheel get strictly larger hues |
| Spinner.PaletteDistinct | spinner.py:97-101 | the twelve palette colours are distinct |
| Spinner.GenerateColors | spinner.py:96-111 | the palette prefix for n ≤ 12, otherwise n HSL colours with hue i·360/n, 70% and 50%; no two segments share a colour |
| Spinner.Weights | spinner.py:117 | one weight per task, in order, equal to its priority |
| Spinner.SelectRandomTask | spinner.py:113-118 | None exactly for an empty list; otherwise the task at the drawn index, which is one of the given tasks |

## Left out

- I/O: the database file, `sqlite3.connect`, commit and close. The HTTP POST, its JSON payload and headers. `st.secrets` backend detection and `print`. The store is the two tables in memory with local-SQLite row semantics.
- The transport itself: `Execute` is given the server's reply, or the transport failure, as a parameter.
- The Hrana reply is taken in the flat shape the code reads (`results[0].type`, `response.cols`, `response.rows`). `lastrowid` over HTTP and `RETURNING id` are not modelled. The store assigns ids with its own counter.
- The connection's `row_factory` is a plain flag of the cursor's connection. Whether the HTTP connection ever sets it, and the later `dict(row)` over HTTP tuples, are not modelled.
- A missing `type` key in a cell is represented by the empty string.
- Base64 and `float()` on text are parameters (`Codecs`). `int()` on text is modelled for ASCII text only.
- Floats:
  - `Spinner.Hue` and `Queries.CompletionRate` are exact reals, with no rounding.
  - Float parameters and cells are exact reals.
  - The report percentages and the average per day are not computed. Their (completed, total) and (spins, active days) figures are.
- Text formatting: the report strings, `strftime`, and the `hsl(...)` text of a colour.
- The wall clock: "now" and "today" are parameters. `dayOfMonth` stands for the calendar's day of the month.
- TursoHttp.TursoHttpCursor.Execute: decodes blob cells with the corrected decoder (`TursoHttp.DecodeCell`, see Findings). As written, any `ok` reply with a blob cell raises `TypeError` from `b64decode(None)`: `rows` stays empty, `columns` is already set and `rowcount` keeps its old value; the model instead returns the decoded bytes. `TursoHttp.DecodeRows` decodes with the same corrected decoder.
- Reports.SpinsOnDay, Reports.WeekSpins, Reports.MonthSpins, Reports.SpinsBetween: `spun_at` (SQLite's UTC `CURRENT_TIMESTAMP`) and "today" (local `datetime.now()`) are on one clock here, i.e. local time is taken to be UTC. Away from UTC the program dates a spin near midnight on a different day than the model does.
- Queries.AnalyticsData: the cutoff is an explicit instant. The code's comparison of UTC `CURRENT_TIMESTAMP` text against a local `datetime.now()` string is not reproduced. The pandas DataFrame is a sequence of rows.
- Queries.SpinHistory: does not fix the order of spins with the same `spun_at`, because SQL leaves it open. The contract states sortedness, and that no row left out is later than a row kept.
- Spinner.SelectRandomTask: the probability distribution of `random.choices` is not modelled. The draw is a parameter that returns an index of the weight list. The `ValueError` that `random.choices` raises when the weights sum to zero is not modelled.
- Reports.GenerateWeeklyReport: the one loop that fills `task_counts` and `category_counts` together is modelled as two counting passes over the same spins. They build the same dictionaries in the same key order.
- The Streamlit page shell, the analytics charts, and `create_spinner_wheel`/`create_mini_wheel` are not part of this model.

## Findings

| source | as written | input that shows it | evidently intended | confidence | as-written member | corrected member |
|---|---|---|---|---|---|---|
| database.py:119-120 (against database.py:47-49) | a `blob` cell is decoded from its `value` key, but blobs are sent, and returned by the server, under `base64` | any bytes parameter, e.g. `b"\x00"`, encoded and read back: `value` is absent, so `b64decode(None)` raises | decode a blob from its `base64` key | not executed | TursoHttp.DecodeCellAsWritten (TursoHttp.BlobFailsAsWritten) | TursoHttp.DecodeCell (TursoHttp.EncodeThenDecode) |
