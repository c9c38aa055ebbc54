# REST API performance harness — Dafny model

The repository measures a to-do-manager REST API under growing load. Eight
JUnit scenario classes drive the API. For every scale `s` in 1, 5, 10, 50,
75, 100, each scenario runs `s` units of work. A unit of work is one timed
add, one timed update and one timed delete. After each phase the scenario
hands the elapsed milliseconds to a `PerformanceMonitor`. The monitor
samples total CPU (from `ps`) and free memory (from `vm_stat`) for each
phase and keeps one row per unit. At the end it writes all rows to a CSV
file.

The model has these modules:

- `JavaLong`: Java `long` arithmetic. 64-bit wrap-around, and integer
  division that truncates toward zero.
- `Decimal`, `Text`: decimal spellings and the string operations the
  harness uses: `trim`, `startsWith`, `contains`, `replaceAll("[^0-9]", "")`
  and comma splitting.
- `Timer`: `measure`, the nanosecond clock difference divided by 1 000 000.
- `Sampler`: `readFreeMemory` and `readCPU`, as functions of the command
  output. `readFreeMemory` is a method whose loop is proved against the
  line-matching functions `Field` and `MemoryMB`.
- `Recorder`: the monitor's row list and `current` row, and the
  `recordAdd` / `recordUpdate` / `recordDelete` state machine. An update or
  delete before any add is the `NullPointerException` path, modelled as an
  error result. `Recorder` also replays a whole sequence of calls.
- `Csv`: the `writeCSV` layout, with the header, `%d`, `%.4f` and `%.2f`
  fields. It also has a reader, to state what a consumer of the file
  recovers.
- `Schedule`: the `SCALES` array and the sequence of scale tags it
  produces.
- `Driver`: the nested loop every scenario shares, as an event trace. The
  trace holds HTTP requests (timed or not), monitor calls and the final
  file write. `Driver.Run` is the loop as a method. Next to it are
  reference functions for the trace, the rows and the CSV lines.
- `Trace`: views of a trace: requests, timed requests and monitor calls.
  It also counts requests per verb and holds the single-create variant of
  the basic scenarios.
- `Scenarios`: the eight concrete scenarios: their workloads, file names
  and run-level facts.

## Model

| member | source | states |
|---|---|---|
| JavaLong.Wrap | rest-api-performance/src/test/java/ecse429/PerformanceMonitor.java:55 | the 64-bit result of a `long` product is congruent to the exact value modulo 2^64 and equals it when it is in range |
| JavaLong.Quot | rest-api-performance/src/test/java/ecse429/ProjectTests.java:22 | Java `long` division by a positive divisor truncates toward zero: bounds on the quotient for both signs of the dividend |
| Timer.Measure | rest-api-performance/src/test/java/ecse429/ProjectCategoriesTests.java:16-20 | the measured milliseconds are the whole milliseconds in the elapsed nanoseconds, rounded toward zero, for either sign of the difference |
| Timer.MeasureAcrossWrap | rest-api-performance/src/test/java/ecse429/TodoTasksofTests.java:18-22 | if the nanosecond counter wraps past `Long.MAX_VALUE` during a phase, the measured time is still the true elapsed time divided by 10^6 |
| Decimal.ParseIntRoundTrip | rest-api-performance/src/test/java/ecse429/PerformanceMonitor.java:102-103 | reading back a `%d` spelling of any integer gives that integer |
| Text.KeepDigitsAppend | rest-api-performance/src/test/java/ecse429/PerformanceMonitor.java:48 | deleting non-digits distributes over concatenation, so the kept digits of a line are the digits of its parts in order |
| Text.KeepDigitsChar | rest-api-performance/src/test/java/ecse429/PerformanceMonitor.java:48 | a single character survives `replaceAll("[^0-9]", "")` exactly when it is a digit; with `KeepDigitsAppend` this fixes the result for every string |
| Text.ContainsOccurs | rest-api-performance/src/test/java/ecse429/PerformanceMonitor.java:50 | `contains` holds exactly when the part occurs at some position of the line |
| Text.TrimSlice | rest-api-performance/src/test/java/ecse429/PerformanceMonitor.java:28-29 | a trimmed line is a contiguous piece of the line, and it is empty exactly when the line is all blanks |
| Text.SplitJoin | rest-api-performance/src/test/java/ecse429/PerformanceMonitor.java:93-110 | joining comma-free fields with commas and splitting again gives back the fields |
| Sampler.ParseLong | rest-api-performance/src/test/java/ecse429/PerformanceMonitor.java:48 | `Long.parseLong` of a digit string fails exactly on the empty string or a value above `Long.MAX_VALUE`, and otherwise returns the value |
| Sampler.ParseLongRoundTrip | rest-api-performance/src/test/java/ecse429/PerformanceMonitor.java:51 | every non-negative `long` spelled in decimal parses back to itself |
| Sampler.LastMatch | rest-api-performance/src/test/java/ecse429/PerformanceMonitor.java:46-53 | the line whose value survives the scan is the last matching line: it matches, and no later line does; no match means no line matches |
| Sampler.ReadFreeMemory | rest-api-performance/src/test/java/ecse429/PerformanceMonitor.java:38-60 | -1.0 when the process fails or a matching line does not parse; otherwise free pages times page size (64-bit product) in MiB, taken from the last "Pages free" line (default 0) and the last "page size of" line (default 4096) |
| Sampler.ParseAll | rest-api-performance/src/test/java/ecse429/PerformanceMonitor.java:27-30 | the sum of the listing fails exactly when some non-blank entry does not parse; otherwise every entry parses to its summand |
| Sampler.ReadCpu | rest-api-performance/src/test/java/ecse429/PerformanceMonitor.java:20-36 | `readCPU` is -1.0 when the process cannot be started; otherwise it is what the line-by-line loop gives: -1.0 once a non-blank line after the header does not parse, else the running total of the parsed lines |
| Sampler.EntriesMatchLines | rest-api-performance/src/test/java/ecse429/PerformanceMonitor.java:27-30 | trimming, dropping blank lines, parsing and summing all entries gives the same result as the loop, which adds one summand per non-blank line, repeated values included |
| Sampler.EntriesAppend | rest-api-performance/src/test/java/ecse429/PerformanceMonitor.java:27-29 | the entries of consecutive pieces of a listing are the entries of each piece, in order; no entry is merged or dropped across lines |
| Sampler.EntriesOne | rest-api-performance/src/test/java/ecse429/PerformanceMonitor.java:28-29 | one line gives exactly one entry, its trimmed text, unless it is blank, in which case it gives none |
| Sampler.EntriesHoldLine | rest-api-performance/src/test/java/ecse429/PerformanceMonitor.java:27-29 | every non-blank line after the header contributes its trimmed text to the summed entries |
| Sampler.EntryOrigin | rest-api-performance/src/test/java/ecse429/PerformanceMonitor.java:27-29 | every summed entry is the trimmed, non-blank text of some line after the header |
| Sampler.CpuBadLine | rest-api-performance/src/test/java/ecse429/PerformanceMonitor.java:29-34 | one unparsable non-blank line after the header makes `readCPU` return -1.0 |
| Sampler.CpuAllParse | rest-api-performance/src/test/java/ecse429/PerformanceMonitor.java:24-31 | when every non-blank line after the header parses, every entry parses and `readCPU` returns the sum of the parsed entries |
| Sampler.CpuLoopCompletes | rest-api-performance/src/test/java/ecse429/PerformanceMonitor.java:27-31 | when every non-blank line after the header parses, the line-by-line loop runs to the end and never reaches the catch |
| Sampler.CpuEmptyListing | rest-api-performance/src/test/java/ecse429/PerformanceMonitor.java:24-31 | a listing with no line after the header sums to 0.0 |
| Recorder.RecordAdd | rest-api-performance/src/test/java/ecse429/PerformanceMonitor.java:65-75 | `recordAdd` appends one fresh row that becomes current, keeps every earlier row, and sets scale, timestamp and the add phase with the other phases unset |
| Recorder.RecordUpdate | rest-api-performance/src/test/java/ecse429/PerformanceMonitor.java:77-81 | `recordUpdate` fails exactly when there is no current row; otherwise it rewrites only the update phase of the current row, and every other row stays |
| Recorder.RecordDelete | rest-api-performance/src/test/java/ecse429/PerformanceMonitor.java:83-87 | `recordDelete` fails exactly when there is no current row; otherwise it rewrites only the delete phase of the current row, and every other row stays |
| Recorder.MisuseBeforeAdd | rest-api-performance/src/test/java/ecse429/PerformanceMonitor.java:63 | before the first `recordAdd`, `current` is null, so update and delete both fail |
| Recorder.UpdateLastWins | rest-api-performance/src/test/java/ecse429/PerformanceMonitor.java:77-81 | two updates in a row leave the state the second one alone would |
| Recorder.DeleteLastWins | rest-api-performance/src/test/java/ecse429/PerformanceMonitor.java:83-87 | two deletes in a row leave the state the second one alone would |
| Recorder.UpdateDeleteCommute | rest-api-performance/src/test/java/ecse429/PerformanceMonitor.java:77-87 | update and delete write disjoint fields of the current row, so their order does not matter |
| Recorder.OnlyAddAppends | rest-api-performance/src/test/java/ecse429/PerformanceMonitor.java:65-87 | after any successful call sequence, the number of new rows is the number of adds in it |
| Recorder.EarlierRowsStay | rest-api-performance/src/test/java/ecse429/PerformanceMonitor.java:63-87 | no call sequence removes a row or changes a row that is no longer current |
| Recorder.MisuseFailsReplay | rest-api-performance/src/test/java/ecse429/PerformanceMonitor.java:63-87 | a call sequence that starts with an update or delete on a fresh monitor fails |
| Csv.HeaderColumns | rest-api-performance/src/test/java/ecse429/PerformanceMonitor.java:93-98 | the header line splits into exactly the eleven column names |
| Csv.MsRoundTrip | rest-api-performance/src/test/java/ecse429/PerformanceMonitor.java:102-105 | a duration printed with `%.4f` reads back as the same whole number of milliseconds |
| Csv.Cents | rest-api-performance/src/test/java/ecse429/PerformanceMonitor.java:102 | `%.2f` rounds the magnitude half-up to whole hundredths |
| Csv.Rounded | rest-api-performance/src/test/java/ecse429/PerformanceMonitor.java:102 | the printed sample is within half a hundredth of the sampled value |
| Csv.Fixed2RoundTrip | rest-api-performance/src/test/java/ecse429/PerformanceMonitor.java:102-109 | reading back a `%.2f` field gives the sample rounded to hundredths, for either sign |
| Csv.SentinelSurvives | rest-api-performance/src/test/java/ecse429/PerformanceMonitor.java:34 | the -1.0 failure sentinel and an unset 0.0 sample are printed exactly |
| Csv.RowHasElevenFields | rest-api-performance/src/test/java/ecse429/PerformanceMonitor.java:101-110 | no field of a data line contains a comma, so each line splits into exactly its eleven fields |
| Csv.NameAt | rest-api-performance/src/test/java/ecse429/PerformanceMonitor.java:93-98 | each of the eleven column names occurs in the header exactly once, at its own position |
| Csv.FieldAt | rest-api-performance/src/test/java/ecse429/PerformanceMonitor.java:101-109 | the format string places each converted argument at the position its column's name has in the header, so the eleven `printf` arguments are in header order |
| Csv.ConvertNamed | rest-api-performance/src/test/java/ecse429/PerformanceMonitor.java:101-109 | the `printf` argument standing in each column's slot is that column's own value of the row, converted: `add_cpu` gets `r.addCPU` through `%.2f`, `add_mem` gets `r.addMem`, and so on for all eleven |
| Csv.ColumnsByName | rest-api-performance/src/test/java/ecse429/PerformanceMonitor.java:93-109 | a reader that finds a column by its header name gets that column's value: `add_cpu` holds the add-phase CPU sample, `add_mem` the add-phase free memory, and so on for all eleven |
| Csv.UnknownColumn | rest-api-performance/src/test/java/ecse429/PerformanceMonitor.java:93-98 | a name that is not in the header finds no field in any data line |
| Csv.RowRoundTrip | rest-api-performance/src/test/java/ecse429/PerformanceMonitor.java:100-110 | a reader of a data line recovers scale, timestamp and the three durations exactly, and the six samples rounded to hundredths |
| Csv.CsvLines | rest-api-performance/src/test/java/ecse429/PerformanceMonitor.java:90-111 | the file holds the header first and then one line per row |
| Csv.CsvRoundTrip | rest-api-performance/src/test/java/ecse429/PerformanceMonitor.java:90-116 | parsing the whole file gives back every row in order, as the reader recovers it |
| Schedule.TagsCount | rest-api-performance/src/test/java/ecse429/ProjectCategoriesTests.java:98-99 | the outer-times-inner loop runs a scale as many times as the schedule demands it |
| Schedule.TagsSorted | rest-api-performance/src/test/java/ecse429/ProjectCategoriesTests.java:98-99 | units of work come in non-decreasing scale order when the scale array is sorted |
| Schedule.TagsFromSchedule | rest-api-performance/src/test/java/ecse429/ProjectCategoriesTests.java:98-99 | every unit is tagged with a positive scale from the array |
| Schedule.ScalesTags | rest-api-performance/src/test/java/ecse429/ProjectCategoriesTests.java:12 | with the scales 1, 5, 10, 50, 75, 100 a run has 241 units, exactly `s` with scale `s`, none with any other scale, in non-decreasing order |
| Driver.Unit | rest-api-performance/src/test/java/ecse429/ProjectCategoriesTests.java:101-111 | one iteration of the inner loop issues the requests of the workload, makes add, update and delete calls on the monitor in that order, and leaves exactly one new row holding that unit's measurements |
| Driver.Scale | rest-api-performance/src/test/java/ecse429/ProjectTasksTests.java:100-113 | the inner loop produces the reference trace of `scale` units and appends their rows in order |
| Driver.Run | rest-api-performance/src/test/java/ecse429/ProjectCategoriesTests.java:96-115 | the driver's trace is the reference trace; its monitor calls replay without error on a fresh monitor, which ends with one row per unit in order; the CSV is those rows |
| Driver.UnitCalls | rest-api-performance/src/test/java/ecse429/ProjectTests.java:95-105 | whatever the workload, a unit makes exactly add, update, delete on the monitor, in that order |
| Driver.PhasesReplay | rest-api-performance/src/test/java/ecse429/PerformanceMonitor.java:65-87 | add, update, delete on any monitor succeed and append the one row holding all three phases |
| Driver.ScaleReplay | rest-api-performance/src/test/java/ecse429/CategoryTests.java:88-104 | replaying one scale's calls never meets a null current row and appends that scale's rows |
| Driver.RunReplay | rest-api-performance/src/test/java/ecse429/TodoTests.java:78-100 | a whole run's calls replay without error from a fresh monitor and leave exactly the reference rows |
| Trace.ViewsAppend | rest-api-performance/src/test/java/ecse429/ProjectCategoriesTests.java:98-113 | requests, timed requests and monitor calls of consecutive trace pieces are the concatenations of their views |
| Trace.ScheduleUnits | rest-api-performance/src/test/java/ecse429/ProjectCategoriesTests.java:98-113 | the nested loops over scales and repetitions give the same trace as one loop over the flat sequence of scale tags |
| Trace.RunCalls | rest-api-performance/src/test/java/ecse429/ProjectCategoriesTests.java:98-115 | the monitor sees exactly add, update, delete per unit, unit after unit |
| Trace.RunPhases | rest-api-performance/src/test/java/ecse429/ProjectTasksTests.java:99-116 | call `3k` is the add of unit `k` with its scale, and calls `3k+1` and `3k+2` are its update and delete |
| Trace.BasicUnit | rest-api-performance/src/test/java/ecse429/ProjectTests.java:95-105 | a basic unit creates twice, times only the first create, and updates and deletes the second entity |
| Trace.RelationUnit | rest-api-performance/src/test/java/ecse429/CategoryTodosTests.java:101-111 | a relationship unit creates owner and target untimed, then times link, target update and unlink |
| Trace.UnitTally | rest-api-performance/src/test/java/ecse429/CategoryProjectsTests.java:101-111 | per unit, the requests of each verb: two creates, one modify and one remove (basic); two creates, one link, one modify and one unlink (relationship) |
| Trace.RunTally | rest-api-performance/src/test/java/ecse429/TodoTasksofTests.java:98-115 | over a run, each verb is issued its per-unit count times the number of units |
| Trace.WriteOnlyAtEnd | rest-api-performance/src/test/java/ecse429/ProjectCategoriesTests.java:98-115 | the metrics file is written once, after the last unit |
| Trace.SingleCreateBalanced | rest-api-performance/src/test/java/ecse429/ProjectTests.java:95-96 | with one create per unit, a run creates exactly as many entities as it deletes, and the monitor sees the same calls as in the double-create run |
| Scenarios.RowsFollowTags | rest-api-performance/src/test/java/ecse429/PerformanceMonitor.java:65-67 | row `k` of the monitor carries the scale of the `k`-th unit |
| Scenarios.ScenarioRun | rest-api-performance/src/test/java/ecse429/ProjectCategoriesTests.java:93-116 | every scenario replays cleanly and ends with 241 rows, `s` of scale `s`, in order; it makes 723 monitor calls and writes its file once, last |
| Scenarios.RelationTally | rest-api-performance/src/test/java/ecse429/ProjectTasksTests.java:99-116 | a relationship run issues 482 creates, 241 links, 241 updates and 241 unlinks, and deletes no entity |
| Scenarios.BasicTally | rest-api-performance/src/test/java/ecse429/CategoryTests.java:87-107 | a basic run issues 482 creates but only 241 updates and 241 deletes |
| Scenarios.ProjectCategoriesUnit | rest-api-performance/src/test/java/ecse429/ProjectCategoriesTests.java:101-115 | the timed phases are link project→category, update the category, unlink; output `project_categories_metrics.csv` |
| Scenarios.CategoryProjectsUnit | rest-api-performance/src/test/java/ecse429/CategoryProjectsTests.java:101-115 | the timed phases are link category→project, update the project, unlink; output `category_projects_metrics.csv` |
| Scenarios.TodoTasksofUnit | rest-api-performance/src/test/java/ecse429/TodoTasksofTests.java:101-115 | the timed phases are link todo→project via `tasksof`, update the project, unlink; output `todo_tasksof_metrics.csv` |
| Scenarios.ProjectTasksUnit | rest-api-performance/src/test/java/ecse429/ProjectTasksTests.java:102-116 | the timed phases are link project→todo via `tasks`, update the todo, unlink; output `project_tasks_metrics.csv` |
| Scenarios.CategoryTodosUnit | rest-api-performance/src/test/java/ecse429/CategoryTodosTests.java:101-115 | the timed phases are link category→todo, update the todo, unlink; output `category_todos_metrics.csv` |
| Scenarios.ProjectUnit | rest-api-performance/src/test/java/ecse429/ProjectTests.java:95-109 | the timed phases are create, update and delete of a project, but the update and delete never touch the project whose create was timed; output `project_metrics.csv` |
| Scenarios.CategoryUnit | rest-api-performance/src/test/java/ecse429/CategoryTests.java:93-107 | the same for categories; output `category_metrics.csv` |
| Scenarios.TodoUnit | rest-api-performance/src/test/java/ecse429/TodoTests.java:86-100 | the same for todos; output `todo_metrics.csv` |

## Left out

- HTTP requests, JSON bodies, titles and the server. A request is an
  abstract `Request` value. The ids returned by the create calls are
  environment inputs. A failed request, which throws and aborts the test,
  is not modelled beyond the fact that the file is written only after the
  last unit.
- `System.nanoTime` and `System.currentTimeMillis`. They are environment
  readings handed to the driver. Timestamps are not assumed monotonic.
- Launching `ps` and `vm_stat`. A process's output is given as
  `Option<seq<string>>`, where `None` is the failed launch.
- `Double.parseDouble` of a `ps` entry. It is an oracle parameter of
  `ReadCpu`. A parsed value is an exact real.
- Binary floating point. Samples, the MiB division and `%.2f` use exact
  reals, rounding half-up on the magnitude. A double's rounding error and
  the spelling of `NaN` and infinities are not modelled.
- Formatter locale and the platform line separator of `%n`. The model
  uses '.' as the decimal point and one string per line.
- Writing the file, and wrapping an `IOException` in a `RuntimeException`.
  The model produces the lines of the file.
- The Python plotting scripts that read the CSV files. `Csv` models only
  what such a reader relies on: finding a column by its header name, and
  the values it can recover from the text.
- Sampler.ReadFreeMemory: the code does not check the exit code of
  `vm_stat`, so output from a failing process is parsed like any other.
  The model follows the code.
- Sampler.ReadCpu: the code does not check the exit code of `ps` either.
  An empty listing gives 0.0, not -1.0 (`Sampler.CpuEmptyListing`). The
  model follows the code.

## Findings

| source | as written | input that shows it | evidently intended | confidence | as-written member | corrected member |
|---|---|---|---|---|---|---|
| rest-api-performance/src/test/java/ecse429/ProjectTests.java:95-96 (also CategoryTests.java:93-94, TodoTests.java:86-87) | each unit creates two entities: the timed create's entity is never used, and only the second one is updated and deleted | any run: over the scales 1, 5, 10, 50, 75, 100 the scenario issues 482 creates and 241 deletes, leaving 241 entities behind, and the timed create is not the entity the update and delete are timed on | one create per unit, timed, whose id the update and delete then use, so a run leaves the server as it found it | medium, not executed | Scenarios.BasicTally, Trace.BasicUnit | Trace.SingleCreateBalanced |

The driver keeps the code as written. `Trace.SingleCreateBalanced` shows
that, for the same clock and probe readings, the corrected script gives the
monitor exactly the same calls. In a real run the corrected script calls
`recordAdd` one request earlier. The timestamp and the CPU and memory
samples are then taken at a different moment, so the recorded values are
not claimed to be equal.
