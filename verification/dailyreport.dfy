/**
 * One run of Daily_Report.py against the disk: it makes sure the working
 * directories and the three files under `report/utils` exist, reads the
 * recurring schedule, and writes the day's report and work-time log unless
 * they are already there. The month's log gains a line for the month
 * directory pair and for each utility file it creates, and a run that gets
 * through the day's files ends with one closing line.
 */
module DailyReport {
  import opened Basics
  import opened Text
  import opened Config
  import opened Schedule
  import opened Render
  import opened FileSystem

  /**
   * What the run reads from the clock and where it runs: the project
   * directory (the script's parent directory as `os.path.join` spells it),
   * `%Y-%m`, `%Y-%m-%d`, `%d` and `%a` of the start time, and the time stamp
   * of the log lines.
   */
  datatype Context = Context(root: string, month: string, date: string, day: string,
                             weekday: string, stamp: string)

  predicate Digits(s: string)
  {
    forall i :: 0 <= i < |s| ==> '0' <= s[i] <= '9'
  }

  /** The four date fields are renderings of one day. */
  predicate WellFormed(ctx: Context)
  {
    && |ctx.month| == 7 && Digits(ctx.month[..4]) && ctx.month[4] == '-' && Digits(ctx.month[5..])
    && |ctx.day| == 2 && Digits(ctx.day)
    && ctx.date == ctx.month + "-" + ctx.day
    && ctx.weekday in Weekdays
  }

  /** `report/utils` (line 24). */
  const UtilDir: Path := ["report", "utils"]
  /** `logs` (line 28). */
  const LogDir: Path := ["logs"]
  const TaskPath: Path := ["report", "utils", "CurrentTask.adoc"]
  const SchedulePath: Path := ["report", "utils", "CurrentSchedule.adoc"]
  const RecurringPath: Path := ["report", "utils", "reguler_schedule.csv"]

  /** `report/<YYYY-MM>` (line 21). */
  function MonthDir(ctx: Context): (p: Path)
    ensures |p| == 2 && p[0] == "report"
  {
    ["report", ctx.month]
  }

  /** `report/<YYYY-MM>/work_time` (line 22). */
  function WorkDir(ctx: Context): (p: Path)
    ensures |p| == 3 && Parent(p) == MonthDir(ctx)
  {
    ["report", ctx.month, "work_time"]
  }

  /** `<month_dir>/<DD>_daily_report.adoc` (line 107). */
  function ReportPath(ctx: Context): (p: Path)
    ensures |p| == 3 && Parent(p) == MonthDir(ctx)
  {
    ["report", ctx.month, ctx.day + "_daily_report.adoc"]
  }

  /** `<month_dir>/work_time/<YYYY-MM-DD>_work_time_log.csv` (line 115). */
  function WorkLogPath(ctx: Context): (p: Path)
    ensures |p| == 4 && Parent(p) == WorkDir(ctx)
  {
    ["report", ctx.month, "work_time", ctx.date + "_work_time_log.csv"]
  }

  /** `logs/<YYYY-MM>_log.txt` (line 33). */
  function LogPath(ctx: Context): (p: Path)
    ensures |p| == 2 && Parent(p) == LogDir
  {
    ["logs", ctx.month + "_log.txt"]
  }

  /** A path as the log messages print it: joined onto the project directory with `/`. */
  function Show(root: string, p: Path): string
  {
    if p == [] then root else Show(root, p[..|p| - 1]) + "/" + p[|p| - 1]
  }

  function DirMsg(ctx: Context): string
  {
    "Created directory: " + Show(ctx.root, MonthDir(ctx)) + " and " + Show(ctx.root, WorkDir(ctx))
  }

  function FileMsg(ctx: Context, p: Path): string
  {
    "Created file: " + Show(ctx.root, p)
  }

  function SummaryMsg(ctx: Context): string
  {
    "Created daily report and work time log for " + ctx.date
  }

  /** `write_log` (lines 32-35): one time-stamped line. */
  function LogLine(ctx: Context, msg: string): string
  {
    ctx.stamp + " - " + msg + "\n"
  }

  /** The lines `write_log` appends for the messages, in order. */
  function LogText(ctx: Context, msgs: seq<string>): string
  {
    if msgs == [] then "" else LogText(ctx, msgs[..|msgs| - 1]) + LogLine(ctx, msgs[|msgs| - 1])
  }

  function WriteLog(fs: Fs, ctx: Context, msg: string): Effect
  {
    Append(fs, LogPath(ctx), LogLine(ctx, msg))
  }

  /** The month's log file, empty while it does not exist. */
  function LogOf(fs: Fs, ctx: Context): string
  {
    Contents(fs, LogPath(ctx))
  }

  /** The initial `CurrentTask.adoc` (lines 45-51). */
  const TaskTemplate := "== 現在のタスク\n\n[cols=\"3,1,1,2\",options=\"header\"]\n|===\n| タスク名 | 期限 | 状態 | 備考\n|===\n"
  /** The initial `CurrentSchedule.adoc` (lines 58-64). */
  const ScheduleTemplate := "== 直近の予定\n\n[cols=\"1,3,2\",options=\"header\"]\n|===\n| 日付 | 予定名  | 備考\n|===\n"
  /** The initial `reguler_schedule.csv` (line 70): its header line only. */
  const RecurringHeader := "day_of_week,name,time\n"

  /** Lines 28-30. */
  function EnsureLogDir(fs: Fs): Effect
  {
    if Exists(fs, LogDir) then Done(fs) else MakeDirs(fs, LogDir)
  }

  /** Lines 37-39: the month and work-time directories, created together and logged. */
  function EnsureMonthDir(fs: Fs, ctx: Context): Effect
  {
    if Exists(fs, MonthDir(ctx)) then Done(fs)
    else
      var c :- MakeDirs(fs, WorkDir(ctx));
      WriteLog(c, ctx, DirMsg(ctx))
  }

  /** Lines 26-39: the utility, log and month directories. */
  function EnsureDirs(fs: Fs, ctx: Context): Effect
  {
    var a :- MakeDirs(fs, UtilDir);
    var b :- EnsureLogDir(a);
    EnsureMonthDir(b, ctx)
  }

  /** Lines 44-52, 57-65 and 69-71: write a file with its initial text unless it exists, and log that. */
  function CreateIfAbsent(fs: Fs, ctx: Context, p: Path, text: string): Effect
  {
    if Exists(fs, p) then Done(fs)
    else
      var a :- Write(fs, p, text);
      WriteLog(a, ctx, FileMsg(ctx, p))
  }

  /** A file the bootstrap creates when missing, with its initial text. */
  datatype Seed = Seed(path: Path, text: string)

  /** Lines 41-71: the task list, the upcoming-schedule list and the recurring schedule, in that order. */
  const UtilFiles := [Seed(TaskPath, TaskTemplate), Seed(SchedulePath, ScheduleTemplate),
                      Seed(RecurringPath, RecurringHeader)]

  /** The seeds, one after the other, stopping at the first error. */
  function CreateAll(fs: Fs, ctx: Context, seeds: seq<Seed>): Effect
    decreases |seeds|
  {
    if seeds == [] then Done(fs)
    else
      var a :- CreateIfAbsent(fs, ctx, seeds[0].path, seeds[0].text);
      CreateAll(a, ctx, seeds[1..])
  }

  function CreateUtilFiles(fs: Fs, ctx: Context): Effect
  {
    CreateAll(fs, ctx, UtilFiles)
  }

  /** Lines 26-71. */
  function Bootstrap(fs: Fs, ctx: Context): Effect
  {
    var a :- EnsureDirs(fs, ctx);
    CreateUtilFiles(a, ctx)
  }

  /** The two texts of the day. */
  datatype Day = Day(report: string, workLog: string)

  /**
   * Lines 73-113: the report and the work-time log, from the recurring
   * schedule on disk and the configured name; reading the file, the
   * matcher and the unbound `name` of line 84 can each fail.
   */
  function Compose(fs: Fs, name: Option<string>, ctx: Context): Result<Day>
  {
    var text :- Read(fs, RecurringPath);
    var frag :- Scan(Split(text, '\n'), ctx.weekday);
    if name.None? then Err(NameUndefined)
    else Ok(Today(ctx, name.value, frag))
  }

  /** Lines 83-105 and 111-113: the report and the work-time CSV of the day. */
  function Today(ctx: Context, name: string, frag: Fragments): Day
  {
    Day(RenderReport(name, ctx.date, frag.headings), WorkTimeCsv(frag.csv))
  }

  /** Lines 108-109 and 117-118: `open(p, "w")` only when nothing is at `p`. */
  function WriteIfAbsent(fs: Fs, p: Path, text: string): Effect
  {
    if Exists(fs, p) then Done(fs) else Write(fs, p, text)
  }

  /** Lines 107-119: the day's two files, then the closing log line. */
  function Emit(fs: Fs, ctx: Context, day: Day): Effect
  {
    var a :- WriteIfAbsent(fs, ReportPath(ctx), day.report);
    var b :- WriteIfAbsent(a, WorkLogPath(ctx), day.workLog);
    WriteLog(b, ctx, SummaryMsg(ctx))
  }

  /**
   * The whole script: `config` is the text of `config.txt` in the working
   * directory, or nothing when it cannot be opened (line 7).
   */
  function RunDay(fs: Fs, config: Option<string>, ctx: Context): Effect
  {
    if config.None? then Effect(fs, Some(ConfigNotFound))
    else
      var name := ConfiguredName(config.value);
      var fs1 :- Bootstrap(fs, ctx);
      Finish(fs1, ctx, Compose(fs1, name, ctx))
  }

  /** Lines 83-119 once the texts are known: stop at the failure, or emit the day. */
  function Finish(fs: Fs, ctx: Context, day: Result<Day>): Effect
  {
    match day
    case Err(f) => Effect(fs, Some(f))
    case Ok(d) => Emit(fs, ctx, d)
  }

  /** Every directory a run may create. */
  function Made(ctx: Context): set<Path>
  {
    Prefixes(UtilDir) + Prefixes(LogDir) + Prefixes(WorkDir(ctx))
  }

  /** Every file a run may create besides the log. */
  function Created(ctx: Context): set<Path>
  {
    {TaskPath, SchedulePath, RecurringPath, ReportPath(ctx), WorkLogPath(ctx)}
  }

  /** The message of line 39, when the month directory is missing. */
  function DirMsgs(fs: Fs, ctx: Context): seq<string>
  {
    if Exists(fs, MonthDir(ctx)) then [] else [DirMsg(ctx)]
  }

  /** The message of lines 52, 65 or 71, when the file is missing. */
  function FileMsgs(fs: Fs, ctx: Context, p: Path): seq<string>
  {
    if Exists(fs, p) then [] else [FileMsg(ctx, p)]
  }

  /** One message per seed file missing, in order. */
  function SeedMsgs(fs: Fs, ctx: Context, seeds: seq<Seed>): seq<string>
  {
    if seeds == [] then [] else FileMsgs(fs, ctx, seeds[0].path) + SeedMsgs(fs, ctx, seeds[1..])
  }

  function UtilMsgs(fs: Fs, ctx: Context): seq<string>
  {
    SeedMsgs(fs, ctx, UtilFiles)
  }

  /** One message per directory pair and per file the bootstrap finds missing, in the order it checks them. */
  function CreationMsgs(fs: Fs, ctx: Context): seq<string>
  {
    DirMsgs(fs, ctx) + UtilMsgs(fs, ctx)
  }

  lemma {:induction false} LogTextAppend(ctx: Context, a: seq<string>, b: seq<string>)
    ensures LogText(ctx, a + b) == LogText(ctx, a) + LogText(ctx, b)
  {
    if b == [] {
      assert a + b == a;
    } else {
      var init := b[..|b| - 1];
      assert (a + b)[..|a + b| - 1] == a + init;
      LogTextAppend(ctx, a, init);
    }
  }

  lemma LogTextOne(ctx: Context, msg: string)
    ensures LogText(ctx, [msg]) == LogLine(ctx, msg)
  {
    var none: seq<string> := [];
    assert [msg][..0] == none;
    assert "" + LogLine(ctx, msg) == LogLine(ctx, msg);
  }

  /** A path none of the steps touched exists afterwards exactly when it existed before. */
  lemma ExistsKept(fs: Fs, fs': Fs, made: set<Path>, created: set<Path>, appended: set<Path>, p: Path)
    requires Extends(fs, fs', made, created, appended)
    requires p !in made && p !in created && p !in appended
    ensures Exists(fs', p) == Exists(fs, p)
  {
  }

  lemma PrefixesOf(p: Path)
    requires 1 <= |p| <= 3
    ensures |p| == 1 ==> Prefixes(p) == {[], [p[0]]}
    ensures |p| == 2 ==> Prefixes(p) == {[], [p[0]], [p[0], p[1]]}
    ensures |p| == 3 ==> Prefixes(p) == {[], [p[0]], [p[0], p[1]], [p[0], p[1], p[2]]}
  {
    assert p[..0] == [] && p[..1] == [p[0]];
    if |p| >= 2 { assert p[..2] == [p[0], p[1]]; }
    if |p| == 3 { assert p[..3] == [p[0], p[1], p[2]]; }
  }

  /** The directories a run may create, written out. */
  lemma MadeIs(ctx: Context)
    ensures Made(ctx) == {[], ["report"], ["report", "utils"], ["logs"], ["report", ctx.month],
                          ["report", ctx.month, "work_time"]}
  {
    PrefixesOf(UtilDir);
    PrefixesOf(LogDir);
    PrefixesOf(WorkDir(ctx));
  }

  /** The paths of one run are distinct, and none of the files lies on a directory path. */
  lemma PathsDistinct(ctx: Context)
    requires WellFormed(ctx)
    ensures MonthDir(ctx) !in Prefixes(UtilDir) + Prefixes(LogDir)
    ensures TaskPath !in Made(ctx) && SchedulePath !in Made(ctx) && RecurringPath !in Made(ctx)
    ensures ReportPath(ctx) !in Made(ctx) && WorkLogPath(ctx) !in Made(ctx) && LogPath(ctx) !in Made(ctx)
    ensures LogPath(ctx) !in Created(ctx)
    ensures TaskPath != SchedulePath && TaskPath != RecurringPath && SchedulePath != RecurringPath
    ensures ReportPath(ctx) != WorkLogPath(ctx)
    ensures ReportPath(ctx) !in {TaskPath, SchedulePath, RecurringPath}
    ensures WorkLogPath(ctx) !in {TaskPath, SchedulePath, RecurringPath}
  {
    MonthDirNotMade(ctx);
    UtilFilesNotMade(ctx);
    MonthFilesNotMade(ctx);
    MonthFilesDistinct(ctx);
    LogNotCreated(ctx);
  }

  lemma LogNotCreated(ctx: Context)
    requires WellFormed(ctx)
    ensures LogPath(ctx) !in Created(ctx)
  {
  }

  lemma MonthDirNotMade(ctx: Context)
    requires WellFormed(ctx)
    ensures MonthDir(ctx) !in Prefixes(UtilDir) + Prefixes(LogDir)
  {
    assert ctx.month != "utils";
    PrefixesOf(UtilDir);
    PrefixesOf(LogDir);
  }

  lemma UtilFilesNotMade(ctx: Context)
    requires WellFormed(ctx)
    ensures TaskPath !in Made(ctx) && SchedulePath !in Made(ctx) && RecurringPath !in Made(ctx)
  {
    MadeIs(ctx);
  }

  lemma MonthFilesNotMade(ctx: Context)
    requires WellFormed(ctx)
    ensures ReportPath(ctx) !in Made(ctx) && WorkLogPath(ctx) !in Made(ctx) && LogPath(ctx) !in Made(ctx)
  {
    MadeIs(ctx);
    assert ctx.day + "_daily_report.adoc" != "work_time";
  }

  lemma MonthFilesDistinct(ctx: Context)
    requires WellFormed(ctx)
    ensures TaskPath != SchedulePath && TaskPath != RecurringPath && SchedulePath != RecurringPath
    ensures ReportPath(ctx) != WorkLogPath(ctx)
    ensures ReportPath(ctx) !in {TaskPath, SchedulePath, RecurringPath}
    ensures WorkLogPath(ctx) !in {TaskPath, SchedulePath, RecurringPath}
  {
    assert ctx.month != "utils";
  }

  lemma LogDirStep(fs: Fs)
    ensures Extends(fs, EnsureLogDir(fs).fs, Prefixes(LogDir), {}, {})
    ensures EnsureLogDir(fs).fs.files == fs.files
    ensures Valid(fs) ==> Valid(EnsureLogDir(fs).fs)
    ensures EnsureLogDir(fs).abort.None? ==> Exists(EnsureLogDir(fs).fs, LogDir)
  {
    MakeDirsExtends(fs, LogDir);
  }

  lemma MonthDirStep(fs: Fs, ctx: Context)
    requires WellFormed(ctx)
    ensures Extends(fs, EnsureMonthDir(fs, ctx).fs, Prefixes(WorkDir(ctx)), {}, {LogPath(ctx)})
    ensures Valid(fs) ==> Valid(EnsureMonthDir(fs, ctx).fs)
    ensures EnsureMonthDir(fs, ctx).abort.Some? ==> LogOf(EnsureMonthDir(fs, ctx).fs, ctx) == LogOf(fs, ctx)
    ensures EnsureMonthDir(fs, ctx).abort.None? ==>
              && LogOf(EnsureMonthDir(fs, ctx).fs, ctx) == LogOf(fs, ctx) + LogText(ctx, DirMsgs(fs, ctx))
              && Exists(EnsureMonthDir(fs, ctx).fs, MonthDir(ctx))
  {
    var r := EnsureMonthDir(fs, ctx);
    if !Exists(fs, MonthDir(ctx)) {
      var c := MakeDirs(fs, WorkDir(ctx));
      MakeDirsExtends(fs, WorkDir(ctx));
      if c.abort.None? {
        AppendExtends(c.fs, LogPath(ctx), LogLine(ctx, DirMsg(ctx)));
        ExtendsTrans(fs, c.fs, r.fs, Prefixes(WorkDir(ctx)), {}, {}, {}, {}, {LogPath(ctx)});
        LogTextOne(ctx, DirMsg(ctx));
        assert MonthDir(ctx) == Parent(WorkDir(ctx));
      }
    } else {
      assert LogText(ctx, []) == "";
    }
  }

  /**
   * Lines 26-39 only add the utility, log and month directories and append
   * to the log; when they succeed those directories exist and the log has
   * gained the directory line exactly when the month directory was missing.
   */
  lemma EnsureDirsSteps(fs: Fs, ctx: Context)
    requires WellFormed(ctx)
    ensures Extends(fs, EnsureDirs(fs, ctx).fs, Made(ctx), {}, {LogPath(ctx)})
    ensures Valid(fs) ==> Valid(EnsureDirs(fs, ctx).fs)
    ensures EnsureDirs(fs, ctx).abort.Some? ==> LogOf(EnsureDirs(fs, ctx).fs, ctx) == LogOf(fs, ctx)
    ensures EnsureDirs(fs, ctx).abort.None? ==>
              && LogOf(EnsureDirs(fs, ctx).fs, ctx) == LogOf(fs, ctx) + LogText(ctx, DirMsgs(fs, ctx))
              && Prefixes(UtilDir) <= EnsureDirs(fs, ctx).fs.dirs
              && Exists(EnsureDirs(fs, ctx).fs, LogDir)
              && Exists(EnsureDirs(fs, ctx).fs, MonthDir(ctx))
  {
    var r := EnsureDirs(fs, ctx);
    var a := MakeDirs(fs, UtilDir);
    MakeDirsExtends(fs, UtilDir);
    if a.abort.None? {
      assert Prefixes(UtilDir) <= a.fs.dirs by { PrefixesOf(UtilDir); }
      var b := EnsureLogDir(a.fs);
      LogDirStep(a.fs);
      ExtendsTrans(fs, a.fs, b.fs, Prefixes(UtilDir), {}, {}, Prefixes(LogDir), {}, {});
      if b.abort.None? {
        MonthDirNotMade(ctx);
        ExistsKept(fs, b.fs, Prefixes(UtilDir) + Prefixes(LogDir), {}, {}, MonthDir(ctx));
        MonthDirStep(b.fs, ctx);
        ExtendsTrans(fs, b.fs, r.fs, Prefixes(UtilDir) + Prefixes(LogDir), {}, {},
                     Prefixes(WorkDir(ctx)), {}, {LogPath(ctx)});
      }
    }
  }

  /** Lines 44-52 (and their two copies): only `p` is created, and the log gains a line exactly when it is. */
  lemma CreateIfAbsentStep(fs: Fs, ctx: Context, p: Path, text: string)
    requires p != LogPath(ctx)
    ensures Extends(fs, CreateIfAbsent(fs, ctx, p, text).fs, {}, {p}, {LogPath(ctx)})
    ensures Valid(fs) ==> Valid(CreateIfAbsent(fs, ctx, p, text).fs)
    ensures Exists(fs, p) ==> CreateIfAbsent(fs, ctx, p, text) == Done(fs)
    ensures CreateIfAbsent(fs, ctx, p, text).abort.Some? ==>
              LogOf(CreateIfAbsent(fs, ctx, p, text).fs, ctx) == LogOf(fs, ctx)
    ensures CreateIfAbsent(fs, ctx, p, text).abort.None? ==>
              && LogOf(CreateIfAbsent(fs, ctx, p, text).fs, ctx) == LogOf(fs, ctx) + LogText(ctx, FileMsgs(fs, ctx, p))
              && Exists(CreateIfAbsent(fs, ctx, p, text).fs, p)
              && (!Exists(fs, p) ==> CreateIfAbsent(fs, ctx, p, text).fs.files[p] == text)
  {
    var r := CreateIfAbsent(fs, ctx, p, text);
    if !Exists(fs, p) {
      var a := Write(fs, p, text);
      WriteExtends(fs, p, text);
      if a.abort.None? {
        AppendExtends(a.fs, LogPath(ctx), LogLine(ctx, FileMsg(ctx, p)));
        ExtendsTrans(fs, a.fs, r.fs, {}, {p}, {}, {}, {}, {LogPath(ctx)});
        LogTextOne(ctx, FileMsg(ctx, p));
      }
    } else {
      assert LogText(ctx, []) == "";
    }
  }

  function SeedPaths(seeds: seq<Seed>): set<Path>
  {
    set i | 0 <= i < |seeds| :: seeds[i].path
  }

  /** Distinct seed files, none of them the log. */
  predicate SeedsApart(ctx: Context, seeds: seq<Seed>)
  {
    && (forall i :: 0 <= i < |seeds| ==> seeds[i].path != LogPath(ctx))
    && (forall i, j :: 0 <= i < j < |seeds| ==> seeds[i].path != seeds[j].path)
  }

  lemma {:induction false} SeedMsgsKept(fs: Fs, fs': Fs, ctx: Context, seeds: seq<Seed>,
                                        made: set<Path>, created: set<Path>, appended: set<Path>)
    requires Extends(fs, fs', made, created, appended)
    requires forall i :: 0 <= i < |seeds| ==> seeds[i].path !in made + created + appended
    ensures SeedMsgs(fs', ctx, seeds) == SeedMsgs(fs, ctx, seeds)
  {
    if seeds != [] {
      ExistsKept(fs, fs', made, created, appended, seeds[0].path);
      SeedMsgsKept(fs, fs', ctx, seeds[1..], made, created, appended);
    }
  }

  /** Lines for all of `a` and then for the first `m` of `b` are the lines for the first `|a| + m` of `a + b`. */
  lemma {:induction false} LogCompose(before: string, mid: string, after: string, ctx: Context, a: seq<string>, b: seq<string>, m: nat)
    requires m <= |b| && mid == before + LogText(ctx, a) && after == mid + LogText(ctx, b[..m])
    ensures after == before + LogText(ctx, (a + b)[..|a| + m])
  {
    LogTextAppend(ctx, a, b[..m]);
    assert a + b[..m] == (a + b)[..|a| + m];
  }

  lemma SeedsApartTail(ctx: Context, seeds: seq<Seed>)
    requires seeds != [] && SeedsApart(ctx, seeds)
    ensures SeedsApart(ctx, seeds[1..])
    ensures forall i :: 0 <= i < |seeds| - 1 ==> seeds[1..][i].path != seeds[0].path
  {
    forall i | 0 <= i < |seeds| - 1
      ensures seeds[1..][i] == seeds[i + 1]
    {
    }
  }

  /** Creating seed files only adds those files, appends to the log, and does nothing when they all exist. */
  lemma {:induction false} CreateAllFrame(fs: Fs, ctx: Context, seeds: seq<Seed>)
    requires SeedsApart(ctx, seeds)
    ensures Extends(fs, CreateAll(fs, ctx, seeds).fs, {}, SeedPaths(seeds), {LogPath(ctx)})
    ensures Valid(fs) ==> Valid(CreateAll(fs, ctx, seeds).fs)
    ensures (forall i :: 0 <= i < |seeds| ==> Exists(fs, seeds[i].path)) ==> CreateAll(fs, ctx, seeds) == Done(fs)
    decreases |seeds|
  {
    if seeds != [] {
      SeedsApartTail(ctx, seeds);
      var p := seeds[0].path;
      var a := CreateIfAbsent(fs, ctx, p, seeds[0].text);
      CreateIfAbsentStep(fs, ctx, p, seeds[0].text);
      if a.abort.None? {
        CreateAllFrame(a.fs, ctx, seeds[1..]);
        assert SeedPaths(seeds) == {p} + SeedPaths(seeds[1..]);
        ExtendsTrans(fs, a.fs, CreateAll(fs, ctx, seeds).fs, {}, {p}, {LogPath(ctx)},
                     {}, SeedPaths(seeds[1..]), {LogPath(ctx)});
      }
    }
  }

  /**
   * Creating seed files logs one line per file found missing, in order: the
   * log gains the lines of the first `n` messages, all of them when every
   * file could be written.
   */
  lemma {:induction false} CreateAllLog(fs: Fs, ctx: Context, seeds: seq<Seed>) returns (n: nat)
    requires SeedsApart(ctx, seeds)
    ensures n <= |SeedMsgs(fs, ctx, seeds)|
    ensures LogOf(CreateAll(fs, ctx, seeds).fs, ctx) == LogOf(fs, ctx) + LogText(ctx, SeedMsgs(fs, ctx, seeds)[..n])
    ensures CreateAll(fs, ctx, seeds).abort.None? ==> n == |SeedMsgs(fs, ctx, seeds)|
    decreases |seeds|
  {
    var r := CreateAll(fs, ctx, seeds);
    var msgs := SeedMsgs(fs, ctx, seeds);
    if seeds == [] {
      n := 0;
      assert msgs[..n] == [];
      assert LogOf(fs, ctx) + LogText(ctx, []) == LogOf(fs, ctx);
      return;
    }
    var p := seeds[0].path;
    var a := CreateIfAbsent(fs, ctx, p, seeds[0].text);
    CreateIfAbsentStep(fs, ctx, p, seeds[0].text);
    var first := FileMsgs(fs, ctx, p);
    if a.abort.Some? {
      n := 0;
      assert msgs[..0] == [];
      assert LogOf(fs, ctx) + LogText(ctx, []) == LogOf(fs, ctx);
      return;
    }
    SeedsApartTail(ctx, seeds);
    var m := CreateAllLog(a.fs, ctx, seeds[1..]);
    assert r == CreateAll(a.fs, ctx, seeds[1..]);
    n := SeedLogStep(fs, a.fs, ctx, seeds, m, LogOf(r.fs, ctx), r.abort.None?);
  }

  /** The log after the first seed, followed by the log of the others, read against the original tree. */
  lemma {:induction false} SeedLogStep(fs: Fs, a: Fs, ctx: Context, seeds: seq<Seed>, m: nat, after: string, ok: bool)
    returns (n: nat)
    requires seeds != [] && SeedsApart(ctx, seeds)
    requires Extends(fs, a, {}, {seeds[0].path}, {LogPath(ctx)})
    requires LogOf(a, ctx) == LogOf(fs, ctx) + LogText(ctx, FileMsgs(fs, ctx, seeds[0].path))
    requires m <= |SeedMsgs(a, ctx, seeds[1..])|
    requires after == LogOf(a, ctx) + LogText(ctx, SeedMsgs(a, ctx, seeds[1..])[..m])
    requires ok ==> m == |SeedMsgs(a, ctx, seeds[1..])|
    ensures n <= |SeedMsgs(fs, ctx, seeds)|
    ensures after == LogOf(fs, ctx) + LogText(ctx, SeedMsgs(fs, ctx, seeds)[..n])
    ensures ok ==> n == |SeedMsgs(fs, ctx, seeds)|
  {
    var p := seeds[0].path;
    var rest := seeds[1..];
    SeedsApartTail(ctx, seeds);
    SeedMsgsKept(fs, a, ctx, rest, {}, {p}, {LogPath(ctx)});
    var first := FileMsgs(fs, ctx, p);
    var more := SeedMsgs(fs, ctx, rest);
    assert SeedMsgs(fs, ctx, seeds) == first + more;
    n := |first| + m;
    LogCompose(LogOf(fs, ctx), LogOf(a, ctx), after, ctx, first, more, m);
  }

  /** Once all seeds are created, every seed file exists. */
  lemma {:induction false} CreateAllExists(fs: Fs, ctx: Context, seeds: seq<Seed>)
    requires SeedsApart(ctx, seeds) && CreateAll(fs, ctx, seeds).abort.None?
    ensures forall i :: 0 <= i < |seeds| ==> Exists(CreateAll(fs, ctx, seeds).fs, seeds[i].path)
    decreases |seeds|
  {
    if seeds != [] {
      var r := CreateAll(fs, ctx, seeds);
      var p := seeds[0].path;
      var a := CreateIfAbsent(fs, ctx, p, seeds[0].text);
      CreateIfAbsentStep(fs, ctx, p, seeds[0].text);
      var rest := seeds[1..];
      SeedsApartTail(ctx, seeds);
      assert r == CreateAll(a.fs, ctx, rest);
      CreateAllExists(a.fs, ctx, rest);
      CreateAllFrame(a.fs, ctx, rest);
      forall i | 0 <= i < |seeds|
        ensures Exists(r.fs, seeds[i].path)
      {
        if i > 0 {
          assert seeds[i] == rest[i - 1];
        }
      }
    }
  }

  /** The three utility files are distinct from each other and from the log. */
  lemma UtilFilesApart(ctx: Context)
    requires WellFormed(ctx)
    ensures SeedsApart(ctx, UtilFiles)
    ensures SeedPaths(UtilFiles) == {TaskPath, SchedulePath, RecurringPath}
    ensures forall q :: q in SeedPaths(UtilFiles) ==> q !in Made(ctx)
  {
    PathsDistinct(ctx);
    assert UtilFiles[0].path == TaskPath && UtilFiles[1].path == SchedulePath && UtilFiles[2].path == RecurringPath;
  }

  /**
   * Lines 26-71: the bootstrap adds only the run's directories and its three
   * utility files, never changes an existing file other than the log, and
   * does nothing at all when everything is already in place.
   */
  lemma {:induction false} BootstrapFrame(fs: Fs, ctx: Context)
    requires WellFormed(ctx)
    ensures Extends(fs, Bootstrap(fs, ctx).fs, Made(ctx), {TaskPath, SchedulePath, RecurringPath}, {LogPath(ctx)})
    ensures Valid(fs) ==> Valid(Bootstrap(fs, ctx).fs)
  {
    var a := EnsureDirs(fs, ctx);
    EnsureDirsSteps(fs, ctx);
    if a.abort.None? {
      UtilFilesApart(ctx);
      CreateAllFrame(a.fs, ctx, UtilFiles);
      ExtendsTrans(fs, a.fs, Bootstrap(fs, ctx).fs, Made(ctx), {}, {LogPath(ctx)},
                   {}, {TaskPath, SchedulePath, RecurringPath}, {LogPath(ctx)});
    }
  }

  /**
   * Lines 26-71 log one line for the month directories if they were missing
   * and one per utility file that was missing, in that order; the log gains
   * the lines of the first `n` of these messages, all of them on success.
   */
  lemma {:induction false} BootstrapLog(fs: Fs, ctx: Context) returns (n: nat)
    requires WellFormed(ctx)
    ensures n <= |CreationMsgs(fs, ctx)|
    ensures LogOf(Bootstrap(fs, ctx).fs, ctx) == LogOf(fs, ctx) + LogText(ctx, CreationMsgs(fs, ctx)[..n])
    ensures Bootstrap(fs, ctx).abort.None? ==> n == |CreationMsgs(fs, ctx)|
  {
    var r := Bootstrap(fs, ctx);
    var msgs := CreationMsgs(fs, ctx);
    var a := EnsureDirs(fs, ctx);
    EnsureDirsSteps(fs, ctx);
    if a.abort.Some? {
      n := 0;
      assert msgs[..0] == [];
      assert LogOf(fs, ctx) + LogText(ctx, []) == LogOf(fs, ctx);
      return;
    }
    UtilFilesApart(ctx);
    assert r == CreateAll(a.fs, ctx, UtilFiles);
    n := SeedsAfterDirsLog(fs, a.fs, ctx, UtilFiles);
  }

  /** The seed lines follow the directory line in the log, whatever the seeds. */
  lemma {:induction false} SeedsAfterDirsLog(fs: Fs, a: Fs, ctx: Context, seeds: seq<Seed>) returns (n: nat)
    requires SeedsApart(ctx, seeds) && Extends(fs, a, Made(ctx), {}, {LogPath(ctx)})
    requires forall i :: 0 <= i < |seeds| ==> seeds[i].path !in Made(ctx)
    requires LogOf(a, ctx) == LogOf(fs, ctx) + LogText(ctx, DirMsgs(fs, ctx))
    ensures n <= |DirMsgs(fs, ctx) + SeedMsgs(fs, ctx, seeds)|
    ensures LogOf(CreateAll(a, ctx, seeds).fs, ctx)
         == LogOf(fs, ctx) + LogText(ctx, (DirMsgs(fs, ctx) + SeedMsgs(fs, ctx, seeds))[..n])
    ensures CreateAll(a, ctx, seeds).abort.None? ==> n == |DirMsgs(fs, ctx) + SeedMsgs(fs, ctx, seeds)|
  {
    var d := DirMsgs(fs, ctx);
    var m := CreateAllLog(a, ctx, seeds);
    SeedMsgsKept(fs, a, ctx, seeds, Made(ctx), {}, {LogPath(ctx)});
    n := |d| + m;
    LogCompose(LogOf(fs, ctx), LogOf(a, ctx), LogOf(CreateAll(a, ctx, seeds).fs, ctx), ctx, d, SeedMsgs(fs, ctx, seeds), m);
  }

  /** After a successful bootstrap the utility, log and month directories and the three utility files exist. */
  lemma BootstrapReady(fs: Fs, ctx: Context)
    requires WellFormed(ctx) && Bootstrap(fs, ctx).abort.None?
    ensures Prefixes(UtilDir) <= Bootstrap(fs, ctx).fs.dirs
    ensures Exists(Bootstrap(fs, ctx).fs, LogDir) && Exists(Bootstrap(fs, ctx).fs, MonthDir(ctx))
    ensures Exists(Bootstrap(fs, ctx).fs, TaskPath) && Exists(Bootstrap(fs, ctx).fs, SchedulePath)
    ensures Exists(Bootstrap(fs, ctx).fs, RecurringPath)
  {
    var a := EnsureDirs(fs, ctx);
    EnsureDirsSteps(fs, ctx);
    UtilFilesApart(ctx);
    CreateAllFrame(a.fs, ctx, UtilFiles);
    CreateAllExists(a.fs, ctx, UtilFiles);
    assert UtilFiles[0].path == TaskPath && UtilFiles[1].path == SchedulePath && UtilFiles[2].path == RecurringPath;
  }

  /** Lines 108-109 and 117-118: only `p` is created, and only when nothing was there. */
  lemma WriteIfAbsentStep(fs: Fs, p: Path, text: string)
    ensures Extends(fs, WriteIfAbsent(fs, p, text).fs, {}, {p}, {})
    ensures Valid(fs) ==> Valid(WriteIfAbsent(fs, p, text).fs)
    ensures Exists(fs, p) ==> WriteIfAbsent(fs, p, text) == Done(fs)
    ensures WriteIfAbsent(fs, p, text).abort.None? ==>
              && Exists(WriteIfAbsent(fs, p, text).fs, p)
              && (!Exists(fs, p) ==> WriteIfAbsent(fs, p, text).fs.files[p] == text)
  {
    if !Exists(fs, p) {
      WriteExtends(fs, p, text);
    }
  }

  /**
   * Lines 107-119: the report and the work-time log are written only where
   * nothing exists yet; nothing else but the log changes.
   */
  lemma EmitStep(fs: Fs, ctx: Context, day: Day)
    requires WellFormed(ctx)
    ensures Extends(fs, Emit(fs, ctx, day).fs, {}, {ReportPath(ctx), WorkLogPath(ctx)}, {LogPath(ctx)})
    ensures Valid(fs) ==> Valid(Emit(fs, ctx, day).fs)
  {
    var r := Emit(fs, ctx, day);
    var a := WriteIfAbsent(fs, ReportPath(ctx), day.report);
    WriteIfAbsentStep(fs, ReportPath(ctx), day.report);
    if a.abort.None? {
      var b := WriteIfAbsent(a.fs, WorkLogPath(ctx), day.workLog);
      WriteIfAbsentStep(a.fs, WorkLogPath(ctx), day.workLog);
      ExtendsTrans(fs, a.fs, b.fs, {}, {ReportPath(ctx)}, {}, {}, {WorkLogPath(ctx)}, {});
      if b.abort.None? {
        AppendExtends(b.fs, LogPath(ctx), LogLine(ctx, SummaryMsg(ctx)));
        ExtendsTrans(fs, b.fs, r.fs, {}, {ReportPath(ctx), WorkLogPath(ctx)}, {}, {}, {}, {LogPath(ctx)});
      }
    }
  }

  /** The log gains exactly the closing line when the emit succeeds, and nothing otherwise. */
  lemma EmitLog(fs: Fs, ctx: Context, day: Day)
    requires WellFormed(ctx)
    ensures Emit(fs, ctx, day).abort.Some? ==> LogOf(Emit(fs, ctx, day).fs, ctx) == LogOf(fs, ctx)
    ensures Emit(fs, ctx, day).abort.None? ==>
              && LogOf(Emit(fs, ctx, day).fs, ctx) == LogOf(fs, ctx) + LogLine(ctx, SummaryMsg(ctx))
              && LogPath(ctx) in Emit(fs, ctx, day).fs.files
  {
    PathsDistinct(ctx);
    var a := WriteIfAbsent(fs, ReportPath(ctx), day.report);
    if a.abort.None? {
      var b := WriteIfAbsent(a.fs, WorkLogPath(ctx), day.workLog);
      assert LogOf(a.fs, ctx) == LogOf(fs, ctx);
      assert LogOf(b.fs, ctx) == LogOf(fs, ctx);
    }
  }

  /**
   * After a successful emit both files of the day exist, and one that was
   * missing holds the text rendered for it.
   */
  lemma EmitFiles(fs: Fs, ctx: Context, day: Day)
    requires WellFormed(ctx) && Emit(fs, ctx, day).abort.None?
    ensures Exists(Emit(fs, ctx, day).fs, ReportPath(ctx)) && Exists(Emit(fs, ctx, day).fs, WorkLogPath(ctx))
    ensures !Exists(fs, ReportPath(ctx)) ==>
              ReportPath(ctx) in Emit(fs, ctx, day).fs.files && Emit(fs, ctx, day).fs.files[ReportPath(ctx)] == day.report
    ensures !Exists(fs, WorkLogPath(ctx)) ==>
              WorkLogPath(ctx) in Emit(fs, ctx, day).fs.files && Emit(fs, ctx, day).fs.files[WorkLogPath(ctx)] == day.workLog
  {
    PathsDistinct(ctx);
    var a := WriteIfAbsent(fs, ReportPath(ctx), day.report);
    WriteIfAbsentStep(fs, ReportPath(ctx), day.report);
    var b := WriteIfAbsent(a.fs, WorkLogPath(ctx), day.workLog);
    WriteIfAbsentStep(a.fs, WorkLogPath(ctx), day.workLog);
    ExistsKept(fs, a.fs, {}, {ReportPath(ctx)}, {}, WorkLogPath(ctx));
    AppendExtends(b.fs, LogPath(ctx), LogLine(ctx, SummaryMsg(ctx)));
  }

  /** With both files of the day in place, an emit only appends the closing line to the log. */
  lemma EmitIdle(fs: Fs, ctx: Context, day: Day)
    requires Exists(fs, ReportPath(ctx)) && Exists(fs, WorkLogPath(ctx))
    ensures Emit(fs, ctx, day) == WriteLog(fs, ctx, SummaryMsg(ctx))
  {
  }

  /** A seed file that was missing holds its initial text once all seeds are created. */
  lemma {:induction false} CreateAllWrites(fs: Fs, ctx: Context, seeds: seq<Seed>, i: nat)
    requires SeedsApart(ctx, seeds) && i < |seeds|
    requires !Exists(fs, seeds[i].path) && CreateAll(fs, ctx, seeds).abort.None?
    ensures seeds[i].path in CreateAll(fs, ctx, seeds).fs.files
    ensures CreateAll(fs, ctx, seeds).fs.files[seeds[i].path] == seeds[i].text
    decreases |seeds|
  {
    var p := seeds[0].path;
    var a := CreateIfAbsent(fs, ctx, p, seeds[0].text);
    CreateIfAbsentStep(fs, ctx, p, seeds[0].text);
    SeedsApartTail(ctx, seeds);
    var rest := seeds[1..];
    assert CreateAll(fs, ctx, seeds) == CreateAll(a.fs, ctx, rest);
    if i == 0 {
      CreateAllFrame(a.fs, ctx, rest);
      assert p !in SeedPaths(rest);
    } else {
      assert seeds[i] == rest[i - 1];
      ExistsKept(fs, a.fs, {}, {p}, {LogPath(ctx)}, seeds[i].path);
      CreateAllWrites(a.fs, ctx, rest, i - 1);
    }
  }
}
