# Daily report generator, modelled in Dafny

`Daily_Report.py` is a one-shot script run once a day. It does four things:

- It reads the author's name from `config.txt`.
- It makes sure the `report/utils` and `logs` directories exist. When the
  month directory `report/<YYYY-MM>` is missing, it creates it together
  with its `work_time` subdirectory. A month directory that already exists
  is left alone, even when it has no `work_time`; the work-time log then
  cannot be written and the run stops there. It also makes sure three
  utility files exist (a task list, a schedule list and the
  recurring-schedule CSV). Each one missing is created with fixed initial
  text.
- It picks the recurring-schedule lines that start with today's weekday
  abbreviation.
- It writes the day's AsciiDoc report and work-time CSV, unless they
  already exist.

The month's log gets a time-stamped line when the month directory pair is
created and one for each utility file created. A run that gets through the
day's files ends with one closing line for the date. That line is written
whether or not either day file was new; the day files get no line of their
own. A run that stops earlier writes no closing line.

The model is split by concern:

| file | module | what it holds |
|---|---|---|
| basics.dfy | `Basics` | `Option`, `Result`, and the four ways a run can stop (`Failure`) |
| text.dfy | `Text` | the Python string operations the script uses: `split`, `split(sep, 1)`, `strip`, `startswith`, `replace` |
| config.dfy | `Config` | the `name:` scan (lines 7-12): the function `LastName`, and the loop as the method `ReadName` |
| schedule.dfy | `Schedule` | the weekday matcher (lines 73-81): the function `Scan`, and the loop as the method `MatchSchedule` |
| render.dfy | `Render` | the report template, its `.replace("\n\n", "\n")` pass, and the work-time CSV |
| filesystem.dfy | `FileSystem` | the tree of directories and files as a value, and the system calls as functions on it |
| storage.dfy | `Storage` | the same tree as a mutable `Disk` object, with one method per system call |
| dailyreport.dfy | `DailyReport` | the run as a function of the starting tree (`RunDay`) and the step-by-step lemmas |
| runs.dfy | `Runs` | properties of whole runs: frame, log, outcome, files written, second run, first run |
| script.dfy | `Script` | the script as statements mutating a `Disk`, each method proved equal to its function in `DailyReport` |

A run stops at the first exception. Whatever it already wrote stays on
disk. `FileSystem.Effect` carries both the tree and the failure, if any.
The functions chain steps with `:-`, which stops at the first failure.

## Model

| member | source | states |
|---|---|---|
| Config.LastName | DaillyReport/src/Daily_Report.py:10-12 | defined by its body: the value of the last `name:` line, or nothing; specified by `Config.LastNameStep`, `Config.LastNameNone`, `Config.LastNameIsLastMatch`, and implemented by `Config.ReadName` |
| Config.ConfiguredName | DaillyReport/src/Daily_Report.py:7-12 | defined by its body: `LastName` of the text split on line breaks; specified by `Config.ReadName`, `Config.ConfiguredNameOneLine` |
| Config.NameValue | DaillyReport/src/Daily_Report.py:12 | for a `name:` line, the value is the stripped text after the first colon |
| Config.ReadName | DaillyReport/src/Daily_Report.py:8-12 | the loop leaves in `name` the value of the last `name:` line of the split config text, or nothing |
| Config.LastNameStep | DaillyReport/src/Daily_Report.py:10-12 | one more line rebinds the name exactly when it starts with `name:`, and otherwise keeps it |
| Config.LastNameNone | DaillyReport/src/Daily_Report.py:10-12 | `name` stays unbound if and only if no line starts with `name:` |
| Config.LastNameIsLastMatch | DaillyReport/src/Daily_Report.py:10-12 | the last `name:` line wins, whatever earlier `name:` lines say |
| Config.ConfiguredNameOneLine | DaillyReport/src/Daily_Report.py:8-12 | the name never holds a line break |
| Config.NameLineValue | DaillyReport/src/Daily_Report.py:10-12 | `name:` plus a value padded by blanks yields exactly the value (`name: Alice Example` gives `Alice Example`) |
| Schedule.Fields | DaillyReport/src/Daily_Report.py:80 | defined by its body: `line.split(',')`; specified by `Text.Split`, `Schedule.FieldsOfRow` |
| Schedule.Complete | DaillyReport/src/Daily_Report.py:80 | defined by its body: the line has the three fields line 80 indexes; its failure is specified by `Schedule.ScanFails` |
| Schedule.EntryOf | DaillyReport/src/Daily_Report.py:80-81 | defined by its body: the second and third fields; specified by `Schedule.FieldsOfRow`, `Schedule.OneAppointment` |
| Schedule.CsvRow | DaillyReport/src/Daily_Report.py:80 | defined by its body: `,<name>,<time>` and a line break; specified by `Schedule.CsvTextSnoc`, `Render.CsvTextRows` |
| Schedule.Heading | DaillyReport/src/Daily_Report.py:81 | defined by its body: `== <name> ` and a blank line; specified by `Schedule.HeadingsTextSnoc`, `Render.CollapseHeadings` |
| Schedule.Scan | DaillyReport/src/Daily_Report.py:75-81 | defined by its body: the two fragments after the lines, or the IndexError at the first short matching line; specified by `Schedule.MatchSchedule`, `Schedule.ScanSucceeds`, `Schedule.ScanFails`, `Schedule.ScanStopsAtFailure` |
| Schedule.MatchSchedule | DaillyReport/src/Daily_Report.py:75-81 | the loop's two accumulated fragments, or the IndexError, equal `Scan` of the lines |
| Schedule.ScanStopsAtFailure | DaillyReport/src/Daily_Report.py:78-80 | once a line has raised, later lines do not change the outcome |
| Schedule.Matching | DaillyReport/src/Daily_Report.py:79 | the kept lines all start with the weekday, and there are no more of them than lines |
| Schedule.ScanSucceeds | DaillyReport/src/Daily_Report.py:78-81 | if every matching line has three fields, the CSV fragment is one row and the heading fragment one heading per matching line, in file order |
| Schedule.ScanFails | DaillyReport/src/Daily_Report.py:79-80 | the run stops with IndexError at the first matching line with fewer than three fields |
| Schedule.NoMatchNoFragments | DaillyReport/src/Daily_Report.py:75-81 | with no line for today, both fragments are empty |
| Schedule.MatchingEmpty | DaillyReport/src/Daily_Report.py:78-79 | nothing is kept if and only if no line starts with the weekday |
| Schedule.CsvTextSnoc | DaillyReport/src/Daily_Report.py:80 | each matching line appends its `,<name>,<time>` row at the end |
| Schedule.HeadingsTextSnoc | DaillyReport/src/Daily_Report.py:81 | each matching line appends its `== <name>` heading at the end |
| Schedule.HeaderNeverMatches | DaillyReport/src/Daily_Report.py:70-79 | the header line `day_of_week,name,time` starts with no weekday abbreviation, so it never matches |
| Schedule.FieldsOfRow | DaillyReport/src/Daily_Report.py:80 | `line.split(',')` of `<weekday>,<name>,<time>` is exactly those three fields |
| Schedule.OneAppointment | DaillyReport/src/Daily_Report.py:78-81 | the line `Mon,StandupMeeting,09:00` on a Monday gives the row `,StandupMeeting,09:00` and the heading `== StandupMeeting` |
| Schedule.ScanOne | DaillyReport/src/Daily_Report.py:78-81 | a single matching complete line yields its row and heading |
| Text.StartsWith | DaillyReport/src/Daily_Report.py:11 | defined by its body: `str.startswith`; used by `Config.LastName` and `Schedule.Scan`, and specified through `Config.LastNameStep` and `Schedule.Matching` |
| Text.Join | DaillyReport/src/Daily_Report.py:83-105 | defined by its body: `sep.join`, which builds the template's multi-line paragraphs; specified by `Text.JoinSplit`, `Text.SplitJoin` |
| Text.Split | DaillyReport/src/Daily_Report.py:8 | `split` gives at least one piece, and no piece holds the separator |
| Text.JoinSplit | DaillyReport/src/Daily_Report.py:8 | joining the pieces of a split gives the text back |
| Text.SplitJoin | DaillyReport/src/Daily_Report.py:8 | splitting joined separator-free pieces gives the pieces back |
| Text.SplitOnce | DaillyReport/src/Daily_Report.py:12 | `split(":", 1)` gives one or two parts, the first without a colon, and they join back to the text |
| Text.FirstIndex | DaillyReport/src/Daily_Report.py:12 | the position found holds the character, and none before it does |
| Text.Strip | DaillyReport/src/Daily_Report.py:12 | `strip()` leaves a window of the text with only whitespace around it, and that starts and ends with a non-space |
| Text.StripPadding | DaillyReport/src/Daily_Report.py:12 | stripping a value padded with whitespace gives the value back |
| Text.StripWithout | DaillyReport/src/Daily_Report.py:12 | stripping never introduces a character |
| Text.Replace | DaillyReport/src/Daily_Report.py:105 | a replacement no longer than the pattern never lengthens the text |
| Text.ReplaceNoMatch | DaillyReport/src/Daily_Report.py:105 | a text without the pattern is returned unchanged |
| Text.ReplaceMatchShrinks | DaillyReport/src/Daily_Report.py:105 | with a shorter replacement, a text holding the pattern gets strictly shorter |
| Text.ReplaceUnchangedIff | DaillyReport/src/Daily_Report.py:105 | with a shorter replacement, the text is unchanged if and only if it lacks the pattern |
| Text.ReplaceKeepsOthers | DaillyReport/src/Daily_Report.py:105 | when pattern and replacement differ only in one character, every other character survives, in order |
| Render.HeaderLines | DaillyReport/src/Daily_Report.py:83-89 | defined by its body: the title and attribute lines of the template, with the author and date filled in; specified by `Render.ReportShape` |
| Render.ReportTemplate | DaillyReport/src/Daily_Report.py:83-104 | defined by its body: the f-string as six paragraphs, each followed by a blank line; specified by `Render.CollapseLayout`, `Render.ReportShape` |
| Render.RenderReport | DaillyReport/src/Daily_Report.py:83-105 | defined by its body: the template after one `replace("\n\n", "\n")` pass; specified by `Render.ReportShape` |
| Render.WorkTimeCsv | DaillyReport/src/Daily_Report.py:111-113 | defined by its body: header line, rows fragment, one more line break; specified by `Render.WorkTimeLines` |
| Render.CollapseBlankLines | DaillyReport/src/Daily_Report.py:105 | the pass never lengthens the text |
| Render.CollapseUnchangedIff | DaillyReport/src/Daily_Report.py:105 | the pass changes a text if and only if it holds a doubled line break |
| Render.CollapseKeepsText | DaillyReport/src/Daily_Report.py:105 | the pass only removes line breaks; every other character stays, in order |
| Render.CollapseNotComplete | DaillyReport/src/Daily_Report.py:105 | one pass is not a full collapse: three line breaks become two |
| Render.CollapseLines | DaillyReport/src/Daily_Report.py:83-89 | non-empty lines joined by single breaks pass through unchanged |
| Render.CollapseHeadings | DaillyReport/src/Daily_Report.py:95-105 | each `== <name> ` heading loses the blank line the matcher put after it |
| Render.CollapseLayout | DaillyReport/src/Daily_Report.py:83-105 | for any clean header, includes and sections, the collapsed template has every blank line removed except the one after the heading fragment |
| Render.ReportShape | DaillyReport/src/Daily_Report.py:83-105 | the report is the header lines, the two include lines, one line per heading, one empty line, then the work and comment sections |
| Render.CsvTextRows | DaillyReport/src/Daily_Report.py:80 | the CSV fragment is the `,<name>,<time>` rows, each ended by a line break |
| Render.WorkTimeLines | DaillyReport/src/Daily_Report.py:111-113 | read back as lines, the work-time log is the header, one row per appointment, then two empty pieces |
| FileSystem.Prefixes | DaillyReport/src/Daily_Report.py:26 | the directories `makedirs` creates include the root and the path itself |
| FileSystem.MakeDirs | DaillyReport/src/Daily_Report.py:26 | `makedirs(exist_ok=True)` succeeds if and only if no directory on the path is a file; it then adds the path, keeps the files and keeps the tree well formed |
| FileSystem.Write | DaillyReport/src/Daily_Report.py:109 | `open(p, "w")` succeeds if and only if the parent exists and `p` is not a directory; the file then holds exactly the text |
| FileSystem.Append | DaillyReport/src/Daily_Report.py:34-35 | `open(p, "a")` succeeds under the same condition; the file, or an empty one, gains the text at its end |
| FileSystem.Read | DaillyReport/src/Daily_Report.py:73 | `open(p).read()` succeeds if and only if `p` is a file, and gives its text |
| FileSystem.MakeDirsIdle | DaillyReport/src/Daily_Report.py:26 | on a tree where the path already exists, `makedirs` changes nothing |
| FileSystem.MakeDirsExtends | DaillyReport/src/Daily_Report.py:26 | `makedirs` only adds the directories on its path |
| FileSystem.WriteExtends | DaillyReport/src/Daily_Report.py:109 | writing a path that did not exist only creates that file |
| FileSystem.AppendExtends | DaillyReport/src/Daily_Report.py:34-35 | appending touches only that file, and keeps what it held in front |
| Storage.Disk.PathExists | DaillyReport/src/Daily_Report.py:29 | `os.path.exists` is true exactly for an existing directory or file |
| Storage.Disk.MakeDirs | DaillyReport/src/Daily_Report.py:26 | the disk changes as `FileSystem.MakeDirs` says |
| Storage.Disk.Write | DaillyReport/src/Daily_Report.py:45 | the disk changes as `FileSystem.Write` says |
| Storage.Disk.Append | DaillyReport/src/Daily_Report.py:34-35 | the disk changes as `FileSystem.Append` says |
| Storage.Disk.Read | DaillyReport/src/Daily_Report.py:73 | the result is `FileSystem.Read` of the disk |
| DailyReport.MonthDir | DaillyReport/src/Daily_Report.py:21 | the month directory sits directly under `report` |
| DailyReport.WorkDir | DaillyReport/src/Daily_Report.py:22 | `work_time` sits directly in the month directory |
| DailyReport.ReportPath | DaillyReport/src/Daily_Report.py:107 | the report sits directly in the month directory |
| DailyReport.WorkLogPath | DaillyReport/src/Daily_Report.py:115 | the work-time log sits directly in `work_time` |
| DailyReport.LogPath | DaillyReport/src/Daily_Report.py:33 | the month's log sits directly in `logs` |
| DailyReport.Show | DaillyReport/src/Daily_Report.py:20-24 | defined by its body: the path joined onto the project directory with `/`, as the log messages print it (see Left out for `os.sep`) |
| DailyReport.DirMsg | DaillyReport/src/Daily_Report.py:39 | defined by its body: the `Created directory:` message; specified by `Runs.FreshCreationMsgs` |
| DailyReport.FileMsg | DaillyReport/src/Daily_Report.py:52 | defined by its body: the `Created file:` message of lines 52, 65 and 71; specified by `Runs.FreshCreationMsgs` |
| DailyReport.SummaryMsg | DaillyReport/src/Daily_Report.py:119 | defined by its body: the closing message for the date; specified by `DailyReport.EmitLog`, `Runs.FinishLog` |
| DailyReport.LogLine | DaillyReport/src/Daily_Report.py:35 | defined by its body: `<stamp> - <msg>` and a line break; specified by `DailyReport.LogTextOne` |
| DailyReport.LogText | DaillyReport/src/Daily_Report.py:32-35 | defined by its body: the lines of several `write_log` calls, in order; specified by `DailyReport.LogTextAppend`, `DailyReport.LogTextOne` |
| DailyReport.WriteLog | DaillyReport/src/Daily_Report.py:32-35 | defined by its body: append one log line to `logs/<YYYY-MM>_log.txt`; specified by `FileSystem.Append`, `FileSystem.AppendExtends`, and implemented by `Script.WriteLog` |
| DailyReport.EnsureLogDir | DaillyReport/src/Daily_Report.py:28-30 | defined by its body: `makedirs(logs)` when it does not exist; specified by `DailyReport.LogDirStep` |
| DailyReport.EnsureMonthDir | DaillyReport/src/Daily_Report.py:37-39 | defined by its body: the month and `work_time` directories and the directory line, only when the month directory is missing; specified by `DailyReport.MonthDirStep` |
| DailyReport.EnsureDirs | DaillyReport/src/Daily_Report.py:26-39 | defined by its body: the three directory steps, stopping at the first failure; specified by `DailyReport.EnsureDirsSteps`, and implemented by `Script.EnsureDirs` |
| DailyReport.CreateIfAbsent | DaillyReport/src/Daily_Report.py:44-52 | defined by its body: one utility-file block (also lines 57-65 and 69-71); specified by `DailyReport.CreateIfAbsentStep`, and implemented by `Script.CreateIfAbsent` |
| DailyReport.CreateAll | DaillyReport/src/Daily_Report.py:41-71 | defined by its body: the blocks in order, stopping at the first failure; specified by `DailyReport.CreateAllFrame`, `DailyReport.CreateAllLog`, `DailyReport.CreateAllExists`, `DailyReport.CreateAllWrites` |
| DailyReport.CreateUtilFiles | DaillyReport/src/Daily_Report.py:41-71 | defined by its body: `CreateAll` of the three seeds, whose initial texts are the constants `TaskTemplate` (lines 45-51), `ScheduleTemplate` (lines 58-64) and `RecurringHeader` (line 70); specified by `DailyReport.UtilFilesApart`, `Runs.FreshBootstrap` |
| DailyReport.Bootstrap | DaillyReport/src/Daily_Report.py:26-71 | defined by its body: the directories, then the utility files; specified by `DailyReport.BootstrapFrame`, `DailyReport.BootstrapLog`, `DailyReport.BootstrapReady`, and implemented by `Script.Bootstrap` |
| DailyReport.Compose | DaillyReport/src/Daily_Report.py:73-113 | defined by its body: read the schedule, scan it, check the name, render; specified by `Runs.RunOutcome`, `Runs.RunSucceeded`, `Runs.ComposeKept`, and implemented by `Script.Compose` |
| DailyReport.Today | DaillyReport/src/Daily_Report.py:83-113 | defined by its body: the rendered report and work-time CSV; specified by `Render.ReportShape`, `Render.WorkTimeLines`, `Runs.RunFiles` |
| DailyReport.WriteIfAbsent | DaillyReport/src/Daily_Report.py:107-109 | defined by its body: write only where nothing exists (also lines 115-118); specified by `DailyReport.WriteIfAbsentStep` |
| DailyReport.Emit | DaillyReport/src/Daily_Report.py:107-119 | defined by its body: the two guarded writes, then the closing line; specified by `DailyReport.EmitStep`, `DailyReport.EmitLog`, `DailyReport.EmitFiles`, `DailyReport.EmitIdle`, and implemented by `Script.Emit` |
| DailyReport.Finish | DaillyReport/src/Daily_Report.py:83-119 | defined by its body: stop at the composition's failure, or emit; specified by `Runs.FinishLog` |
| DailyReport.RunDay | DaillyReport/src/Daily_Report.py:7-119 | defined by its body: the whole script; specified by the `Runs` lemmas (`Runs.RunOutcome`, `Runs.RunFrame`, `Runs.RunLog`, `Runs.RunFiles`, `Runs.RunTwice`, `Runs.FirstRun`), and implemented by `Script.Run` |
| DailyReport.MadeIs | DaillyReport/src/Daily_Report.py:20-38 | the directories a run can create are exactly `report`, `report/utils`, `logs`, the month directory and its `work_time` |
| DailyReport.PathsDistinct | DaillyReport/src/Daily_Report.py:21-115 | the run's files are distinct from each other and from every directory it makes |
| DailyReport.LogTextAppend | DaillyReport/src/Daily_Report.py:32-35 | logging two batches of messages appends their lines one after the other |
| DailyReport.LogTextOne | DaillyReport/src/Daily_Report.py:35 | one message gives the line `<stamp> - <msg>` plus a line break |
| DailyReport.LogDirStep | DaillyReport/src/Daily_Report.py:28-30 | only `logs` is added, no file changes, and on success `logs` exists |
| DailyReport.MonthDirStep | DaillyReport/src/Daily_Report.py:37-39 | only the month and `work_time` directories are added; the log gains the directory line exactly when the month directory was missing |
| DailyReport.EnsureDirsSteps | DaillyReport/src/Daily_Report.py:26-39 | only the run's directories are added and only the log changes; on success the utility, log and month directories exist |
| DailyReport.CreateIfAbsentStep | DaillyReport/src/Daily_Report.py:44-52 | a file is created only when nothing is at its path, then holds its initial text, and its creation line is logged |
| DailyReport.CreateAllFrame | DaillyReport/src/Daily_Report.py:41-71 | creating the utility files only adds those files and appends to the log; with all present it does nothing |
| DailyReport.CreateAllLog | DaillyReport/src/Daily_Report.py:41-71 | the log gains one line per missing file, in order, for the first `n` of them, and for all of them on success |
| DailyReport.CreateAllExists | DaillyReport/src/Daily_Report.py:41-71 | after success every utility file exists |
| DailyReport.CreateAllWrites | DaillyReport/src/Daily_Report.py:41-71 | a utility file that was missing holds its initial text |
| DailyReport.UtilFilesApart | DaillyReport/src/Daily_Report.py:42-67 | the three utility files are distinct, none is the log, and none is a directory the run makes |
| DailyReport.BootstrapFrame | DaillyReport/src/Daily_Report.py:26-71 | the bootstrap adds only the run's directories and the three utility files, and changes no existing file but the log |
| DailyReport.BootstrapLog | DaillyReport/src/Daily_Report.py:26-71 | the bootstrap logs the directory line if needed, then one line per missing utility file, in order; a failure logs a prefix of these |
| DailyReport.BootstrapReady | DaillyReport/src/Daily_Report.py:26-71 | after a successful bootstrap the utility, log and month directories and the three utility files exist (`work_time` only if the month directory was new) |
| DailyReport.WriteIfAbsentStep | DaillyReport/src/Daily_Report.py:107-109 | the day's file is written only when nothing is at its path |
| DailyReport.EmitStep | DaillyReport/src/Daily_Report.py:107-119 | the emit adds only the report and the work-time log and appends to the log |
| DailyReport.EmitLog | DaillyReport/src/Daily_Report.py:117-119 | the log gains exactly the closing line when the emit succeeds, and nothing otherwise |
| DailyReport.EmitFiles | DaillyReport/src/Daily_Report.py:107-118 | after a successful emit both files exist, and one that was missing holds its rendered text |
| DailyReport.EmitIdle | DaillyReport/src/Daily_Report.py:107-119 | with both files in place, the emit only appends the closing line |
| Runs.BootstrapRecurring | DaillyReport/src/Daily_Report.py:69-73 | after the bootstrap, reading the recurring schedule gives its old text, or the header if it was missing; it fails only if a directory has that name |
| Runs.RunOutcome | DaillyReport/src/Daily_Report.py:7-119 | with no `config.txt` nothing happens; otherwise the run stops at the first of: bootstrap error, unreadable schedule, short schedule line, missing name; if none, it emits the day |
| Runs.RunFrame | DaillyReport/src/Daily_Report.py:26-119 | whatever the outcome, a run only adds its directories and files and appends to the log; every other file is unchanged |
| Runs.FinishLog | DaillyReport/src/Daily_Report.py:83-119 | the closing line is logged exactly when the day is emitted |
| Runs.RunLog | DaillyReport/src/Daily_Report.py:32-119 | the log is append-only: a successful run adds one line per creation, in order, then the closing line; a failed run adds a prefix of the creation lines |
| Runs.BootstrapKeeps | DaillyReport/src/Daily_Report.py:26-71 | a path the bootstrap does not own keeps its existence and its text |
| Runs.RunSucceeded | DaillyReport/src/Daily_Report.py:7-119 | a successful run had a config with a name and a well-formed schedule, and emitted exactly today's texts |
| Runs.RunFiles | DaillyReport/src/Daily_Report.py:107-118 | after success both files exist; a missing one holds the rendered report or CSV; an existing one is untouched |
| Runs.BootstrapIdle | DaillyReport/src/Daily_Report.py:26-71 | with everything in place, the bootstrap does nothing and logs nothing |
| Runs.ComposeKept | DaillyReport/src/Daily_Report.py:73-81 | the emit leaves the recurring schedule as it was, so a later run reads the same day |
| Runs.RunAgain | DaillyReport/src/Daily_Report.py:26-119 | on a tree with everything in place, a run only appends the closing line |
| Runs.RunTwice | DaillyReport/src/Daily_Report.py:26-119 | a second run on the same day after a successful one changes nothing but one more closing line in the log |
| Runs.HeaderOnlyScan | DaillyReport/src/Daily_Report.py:73-81 | a schedule with only a non-matching header line yields no appointment |
| Runs.RecurringHeaderScan | DaillyReport/src/Daily_Report.py:70-81 | the freshly written recurring schedule yields no appointment on any weekday |
| Runs.FreshDirs | DaillyReport/src/Daily_Report.py:26-39 | in an empty project the directory steps make every directory and log only the directory line |
| Runs.FreshBootstrap | DaillyReport/src/Daily_Report.py:26-71 | in an empty project the bootstrap succeeds, makes exactly the run's directories, and writes the three initial texts |
| Runs.FreshBootstrapFiles | DaillyReport/src/Daily_Report.py:26-71 | in an empty project the bootstrap's files are exactly the three utility files and the log |
| Runs.EmitFresh | DaillyReport/src/Daily_Report.py:107-119 | on the freshly bootstrapped tree the emit succeeds and writes both files and the closing line |
| Runs.FirstRunEmits | DaillyReport/src/Daily_Report.py:73-119 | in an empty project the run reads back the bare header and emits a day without appointments |
| Runs.FirstRun | DaillyReport/src/Daily_Report.py:7-119 | the first run makes exactly the run's directories and files, with the three initial texts, an appointment-free report and a header-only work-time log |
| Runs.FreshCreationMsgs | DaillyReport/src/Daily_Report.py:37-71 | in an empty project the bootstrap announces the directories and then each utility file |
| Runs.FreshBootstrapLog | DaillyReport/src/Daily_Report.py:26-71 | the first bootstrap logs exactly four lines |
| Runs.FirstRunLog | DaillyReport/src/Daily_Report.py:32-119 | the first run's log holds exactly five lines: directories, three files, closing line |
| Runs.RunWithoutName | DaillyReport/src/Daily_Report.py:7-119 | without a `name:` line the run always fails and never writes the report, the work-time log or the closing line; with nothing earlier failing, it fails with the unbound name |
| Script.WriteLog | DaillyReport/src/Daily_Report.py:32-35 | `write_log` changes the disk as `DailyReport.WriteLog` says |
| Script.EnsureDirs | DaillyReport/src/Daily_Report.py:26-39 | the directory statements change the disk as `DailyReport.EnsureDirs` says |
| Script.CreateIfAbsent | DaillyReport/src/Daily_Report.py:44-52 | one utility-file block changes the disk as `DailyReport.CreateIfAbsent` says |
| Script.Bootstrap | DaillyReport/src/Daily_Report.py:26-71 | the bootstrap statements change the disk as `DailyReport.Bootstrap` says |
| Script.Compose | DaillyReport/src/Daily_Report.py:73-113 | reading, matching and rendering give `DailyReport.Compose` of the disk |
| Script.Emit | DaillyReport/src/Daily_Report.py:107-119 | the closing statements change the disk as `DailyReport.Emit` says |
| Script.Run | DaillyReport/src/Daily_Report.py:7-119 | the whole script leaves the disk, and stops with the failure, that `DailyReport.RunDay` gives |

## Left out

- The clock: the start time's `%Y-%m`, `%Y-%m-%d`, `%d` and `%a` renderings are inputs (`DailyReport.Context`). `DailyReport.WellFormed` checks only their format and that they agree with each other. It does not check that the weekday matches the date.
- Log time stamps: every log line of a run carries the same stamp `ctx.stamp`. The script reads the clock again on each `write_log` call, so its stamps can differ by a few seconds.
- `config.txt` is the text read from the working directory, or nothing when it cannot be opened. Decoding errors of `encoding="utf-8"` are not modelled.
- The project directory (`abspath(__file__)/..`) is an opaque string. It appears only in log messages; paths are component sequences below it. Symbolic links, permissions, full disks and other OS errors are not modelled. Only the conflicts the script can hit are: a file where a directory is needed, or a directory where a file is needed.
- Line endings: the script reads `config.txt` (line 7) and the recurring schedule (line 73) in Python's text mode, which turns `"\r\n"` and a lone `"\r"` into `"\n"` before `split("\n")` sees them. The model does not perform this translation: `config` and the texts in `Fs.files` stand for the text as text-mode reading returns it, with line endings already converted. A file saved with CRLF endings is therefore modelled by its `"\n"`-only text; the model on its own would keep a `'\r'` at the end of each line (in a `name:` value, or in a schedule row's time). Text-mode writing on a platform whose line separator is not `"\n"` is not modelled either.
- Text is a sequence of characters, with no encoding. Line 70 writes without an `encoding` argument; that difference is not modelled.
- Path separators: `DailyReport.Show` joins the components of a logged path with `/`. `os.path.join` uses `os.sep`, so on Windows the paths in the log's `Created directory:` and `Created file:` lines would hold `\` instead.
- The success message printed on line 121 is not modelled.
- `%a` is taken in the C locale (`Mon` … `Sun`). The claim that the header line never matches assumes it.
- Whole-run lemmas (Runs.RunOutcome, Runs.RunFiles, Runs.RunTwice and others) assume the starting tree is well formed (`FileSystem.Valid`: every entry sits in an existing directory, and no path is both a file and a directory). Every real tree is.
- The initial texts of the two AsciiDoc utility files and the report template are constants copied from the script, Japanese headings included. The report template is built from its lines, joined by line breaks; the string is the same.
- The name scan keeps the last `name:` line: the loop on lines 10-12 never breaks, so each later match overwrites `name`.
- The first run in an empty project logs five lines: the directory pair, three files and the closing line (Runs.FirstRunLog). This is exactly the count, not a lower bound.
