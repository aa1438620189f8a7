/**
 * What a whole run of Daily_Report.py does to the project directory: what
 * it may touch, what it appends to the log, how it ends, what the day's
 * files hold, what a second run the same day does, and what the very first
 * run in an empty project leaves behind.
 */
module Runs {
  import opened Basics
  import opened Text
  import opened Config
  import opened Schedule
  import opened Render
  import opened FileSystem
  import opened DailyReport

  /** The recurring schedule the run reads: the file's text, or the header line written when it is missing. */
  function RecurringText(fs: Fs): string
  {
    if RecurringPath in fs.files then fs.files[RecurringPath] else RecurringHeader
  }

  /**
   * After a successful bootstrap (lines 69-71), reading the recurring
   * schedule gives the text it had, or the bare header when it was missing;
   * it fails only when a directory stands in its place.
   */
  lemma BootstrapRecurring(fs: Fs, ctx: Context)
    requires WellFormed(ctx) && Valid(fs) && Bootstrap(fs, ctx).abort.None?
    ensures Read(Bootstrap(fs, ctx).fs, RecurringPath)
         == if RecurringPath in fs.dirs then Err(OsError(RecurringPath)) else Ok(RecurringText(fs))
  {
    var b := Bootstrap(fs, ctx);
    BootstrapFrame(fs, ctx);
    PathsDistinct(ctx);
    if RecurringPath !in fs.dirs && RecurringPath !in fs.files {
      var a := EnsureDirs(fs, ctx);
      EnsureDirsSteps(fs, ctx);
      ExistsKept(fs, a.fs, Made(ctx), {}, {LogPath(ctx)}, RecurringPath);
      UtilFilesApart(ctx);
      assert UtilFiles[2].path == RecurringPath;
      CreateAllWrites(a.fs, ctx, UtilFiles, 2);
    }
  }

  /** The recurring schedule's fragments for today, as the run computes them from the tree it starts on. */
  function ScheduleOf(fs: Fs, ctx: Context): Result<Fragments>
  {
    Scan(Split(RecurringText(fs), '\n'), ctx.weekday)
  }

  /**
   * How a run ends, in terms of the tree it starts on: without `config.txt`
   * nothing happens; after the bootstrap the run stops at a directory in
   * place of the recurring schedule, at a short schedule line, or at the
   * missing name, in that order, and otherwise emits the day's files.
   */
  lemma RunOutcome(fs: Fs, config: Option<string>, ctx: Context)
    requires WellFormed(ctx) && Valid(fs)
    ensures config.None? ==> RunDay(fs, config, ctx) == Effect(fs, Some(ConfigNotFound))
    ensures config.Some? && Bootstrap(fs, ctx).abort.Some? ==> RunDay(fs, config, ctx) == Bootstrap(fs, ctx)
    ensures config.Some? && Bootstrap(fs, ctx).abort.None? ==>
              var b := Bootstrap(fs, ctx).fs;
              var name := ConfiguredName(config.value);
              var frag := ScheduleOf(fs, ctx);
              RunDay(fs, config, ctx)
              == if RecurringPath in fs.dirs then Effect(b, Some(OsError(RecurringPath)))
                 else if frag.Err? then Effect(b, Some(frag.failure))
                 else if name.None? then Effect(b, Some(NameUndefined))
                 else Emit(b, ctx, Today(ctx, name.value, frag.value))
  {
    if config.Some? && Bootstrap(fs, ctx).abort.None? {
      BootstrapRecurring(fs, ctx);
    }
  }

  /**
   * A run, however it ends, only adds its own directories and files and
   * appends to the month's log: every other file, and every file it finds
   * already in place other than the log, is left exactly as it was.
   */
  lemma RunFrame(fs: Fs, config: Option<string>, ctx: Context)
    requires WellFormed(ctx)
    ensures Extends(fs, RunDay(fs, config, ctx).fs, Made(ctx), Created(ctx), {LogPath(ctx)})
    ensures Valid(fs) ==> Valid(RunDay(fs, config, ctx).fs)
  {
    var r := RunDay(fs, config, ctx);
    if config.Some? {
      var b := Bootstrap(fs, ctx);
      BootstrapFrame(fs, ctx);
      if b.abort.None? {
        var c := Compose(b.fs, ConfiguredName(config.value), ctx);
        assert r == Finish(b.fs, ctx, c);
        if c.Ok? {
          EmitStep(b.fs, ctx, c.value);
          ExtendsTrans(fs, b.fs, r.fs, Made(ctx), {TaskPath, SchedulePath, RecurringPath}, {LogPath(ctx)},
                       {}, {ReportPath(ctx), WorkLogPath(ctx)}, {LogPath(ctx)});
        }
      }
    }
  }

  /** The log gains the closing line exactly when the day's files are emitted. */
  lemma FinishLog(fs: Fs, ctx: Context, day: Result<Day>)
    requires WellFormed(ctx)
    ensures Finish(fs, ctx, day).abort.Some? ==> LogOf(Finish(fs, ctx, day).fs, ctx) == LogOf(fs, ctx)
    ensures Finish(fs, ctx, day).abort.None? ==>
              LogOf(Finish(fs, ctx, day).fs, ctx) == LogOf(fs, ctx) + LogLine(ctx, SummaryMsg(ctx))
  {
    if day.Ok? {
      EmitLog(fs, ctx, day.value);
    }
  }

  /**
   * The month's log only grows: a successful run appends one line per
   * directory pair and file it created, in order, and the closing line; a
   * failed run appends the lines of the first `n` creations and no closing
   * line.
   */
  lemma {:induction false} RunLog(fs: Fs, config: Option<string>, ctx: Context) returns (n: nat)
    requires WellFormed(ctx)
    ensures RunDay(fs, config, ctx).abort.Some? ==>
              && n <= |CreationMsgs(fs, ctx)|
              && LogOf(RunDay(fs, config, ctx).fs, ctx) == LogOf(fs, ctx) + LogText(ctx, CreationMsgs(fs, ctx)[..n])
    ensures RunDay(fs, config, ctx).abort.None? ==>
              LogOf(RunDay(fs, config, ctx).fs, ctx)
              == LogOf(fs, ctx) + LogText(ctx, CreationMsgs(fs, ctx)) + LogLine(ctx, SummaryMsg(ctx))
  {
    var r := RunDay(fs, config, ctx);
    var msgs := CreationMsgs(fs, ctx);
    if config.None? {
      n := 0;
      assert msgs[..0] == [];
      assert LogOf(fs, ctx) + LogText(ctx, []) == LogOf(fs, ctx);
      return;
    }
    var b := Bootstrap(fs, ctx);
    n := BootstrapLog(fs, ctx);
    if b.abort.None? {
      var c := Compose(b.fs, ConfiguredName(config.value), ctx);
      assert r == Finish(b.fs, ctx, c);
      FinishLog(b.fs, ctx, c);
      if r.abort.None? {
        assert msgs[..n] == msgs;
      }
    }
  }

  /** A path the bootstrap has no business with is left as it was. */
  lemma BootstrapKeeps(fs: Fs, ctx: Context, p: Path)
    requires WellFormed(ctx)
    requires p !in Made(ctx) && p !in {TaskPath, SchedulePath, RecurringPath} && p != LogPath(ctx)
    ensures Exists(Bootstrap(fs, ctx).fs, p) == Exists(fs, p)
    ensures p in fs.files ==> p in Bootstrap(fs, ctx).fs.files && Bootstrap(fs, ctx).fs.files[p] == fs.files[p]
  {
    BootstrapFrame(fs, ctx);
  }

  /** A run that succeeds found the name and today's appointments, bootstrapped, and emitted the day. */
  lemma RunSucceeded(fs: Fs, config: Option<string>, ctx: Context)
    requires WellFormed(ctx) && Valid(fs) && RunDay(fs, config, ctx).abort.None?
    ensures config.Some? && ConfiguredName(config.value).Some? && ScheduleOf(fs, ctx).Ok?
    ensures Bootstrap(fs, ctx).abort.None?
    ensures Compose(Bootstrap(fs, ctx).fs, ConfiguredName(config.value), ctx)
         == Ok(Today(ctx, ConfiguredName(config.value).value, ScheduleOf(fs, ctx).value))
    ensures RunDay(fs, config, ctx)
         == Emit(Bootstrap(fs, ctx).fs, ctx, Today(ctx, ConfiguredName(config.value).value, ScheduleOf(fs, ctx).value))
  {
    RunOutcome(fs, config, ctx);
    BootstrapRecurring(fs, ctx);
  }

  /**
   * Lines 107-118: after a successful run the report and the work-time log
   * exist; one that was missing holds the rendered report, or the work-time
   * CSV, of the configured name and today's recurring appointments, and one
   * that was there is untouched.
   */
  lemma RunFiles(fs: Fs, config: Option<string>, ctx: Context)
    requires WellFormed(ctx) && Valid(fs) && RunDay(fs, config, ctx).abort.None?
    ensures config.Some? && ConfiguredName(config.value).Some? && ScheduleOf(fs, ctx).Ok?
    ensures Exists(RunDay(fs, config, ctx).fs, ReportPath(ctx)) && Exists(RunDay(fs, config, ctx).fs, WorkLogPath(ctx))
    ensures !Exists(fs, ReportPath(ctx)) ==>
              && ReportPath(ctx) in RunDay(fs, config, ctx).fs.files
              && RunDay(fs, config, ctx).fs.files[ReportPath(ctx)]
                 == RenderReport(ConfiguredName(config.value).value, ctx.date, ScheduleOf(fs, ctx).value.headings)
    ensures !Exists(fs, WorkLogPath(ctx)) ==>
              && WorkLogPath(ctx) in RunDay(fs, config, ctx).fs.files
              && RunDay(fs, config, ctx).fs.files[WorkLogPath(ctx)] == WorkTimeCsv(ScheduleOf(fs, ctx).value.csv)
    ensures ReportPath(ctx) in fs.files ==>
              && ReportPath(ctx) in RunDay(fs, config, ctx).fs.files
              && RunDay(fs, config, ctx).fs.files[ReportPath(ctx)] == fs.files[ReportPath(ctx)]
    ensures WorkLogPath(ctx) in fs.files ==>
              && WorkLogPath(ctx) in RunDay(fs, config, ctx).fs.files
              && RunDay(fs, config, ctx).fs.files[WorkLogPath(ctx)] == fs.files[WorkLogPath(ctx)]
  {
    RunSucceeded(fs, config, ctx);
    var b := Bootstrap(fs, ctx);
    var day := Today(ctx, ConfiguredName(config.value).value, ScheduleOf(fs, ctx).value);
    EmitStep(b.fs, ctx, day);
    EmitFiles(b.fs, ctx, day);
    PathsDistinct(ctx);
    BootstrapKeeps(fs, ctx, ReportPath(ctx));
    BootstrapKeeps(fs, ctx, WorkLogPath(ctx));
  }

  /** With every directory and utility file in place, the bootstrap does nothing and logs nothing. */
  lemma BootstrapIdle(fs: Fs, ctx: Context)
    requires WellFormed(ctx) && Valid(fs)
    requires Prefixes(UtilDir) <= fs.dirs && Exists(fs, LogDir) && Exists(fs, MonthDir(ctx))
    requires Exists(fs, TaskPath) && Exists(fs, SchedulePath) && Exists(fs, RecurringPath)
    ensures Bootstrap(fs, ctx) == Done(fs)
  {
    MakeDirsIdle(fs, UtilDir);
    assert EnsureDirs(fs, ctx) == Done(fs);
    UtilFilesApart(ctx);
    assert UtilFiles[0].path == TaskPath && UtilFiles[1].path == SchedulePath && UtilFiles[2].path == RecurringPath;
    CreateAllFrame(fs, ctx, UtilFiles);
  }

  /** Everything the bootstrap sets up is in place. */
  predicate Ready(fs: Fs, ctx: Context)
  {
    && Prefixes(UtilDir) <= fs.dirs && Exists(fs, LogDir) && Exists(fs, MonthDir(ctx))
    && Exists(fs, TaskPath) && Exists(fs, SchedulePath) && Exists(fs, RecurringPath)
  }

  /** Nothing a run does removes what is in place. */
  lemma ReadyKept(fs: Fs, fs': Fs, ctx: Context, made: set<Path>, created: set<Path>, appended: set<Path>)
    requires Extends(fs, fs', made, created, appended) && Ready(fs, ctx)
    ensures Ready(fs', ctx)
  {
  }

  /** A later read of a file the emit does not write gives the same text. */
  lemma ComposeKept(b: Fs, once: Fs, name: Option<string>, ctx: Context)
    requires WellFormed(ctx) && Compose(b, name, ctx).Ok?
    requires Extends(b, once, {}, {ReportPath(ctx), WorkLogPath(ctx)}, {LogPath(ctx)})
    ensures Compose(once, name, ctx) == Compose(b, name, ctx)
  {
    PathsDistinct(ctx);
    assert Read(once, RecurringPath) == Read(b, RecurringPath);
  }

  /** On a tree where the day's files are in place, a run only appends the closing line. */
  lemma RunAgain(fs: Fs, config: Option<string>, ctx: Context, day: Day)
    requires WellFormed(ctx) && Valid(fs) && Ready(fs, ctx)
    requires Exists(fs, ReportPath(ctx)) && Exists(fs, WorkLogPath(ctx)) && LogPath(ctx) in fs.files
    requires config.Some? && Compose(fs, ConfiguredName(config.value), ctx) == Ok(day)
    ensures RunDay(fs, config, ctx)
         == Done(Fs(fs.dirs, fs.files[LogPath(ctx) := LogOf(fs, ctx) + LogLine(ctx, SummaryMsg(ctx))]))
  {
    BootstrapIdle(fs, ctx);
    assert RunDay(fs, config, ctx) == Emit(fs, ctx, day);
    EmitIdle(fs, ctx, day);
  }

  /**
   * Running the script again on the same day, after a run that succeeded,
   * creates nothing and rewrites nothing: the tree is the same except that
   * the log has gained the closing line once more.
   */
  lemma RunTwice(fs: Fs, config: Option<string>, ctx: Context)
    requires WellFormed(ctx) && Valid(fs) && RunDay(fs, config, ctx).abort.None?
    ensures RunDay(RunDay(fs, config, ctx).fs, config, ctx)
         == Done(Fs(RunDay(fs, config, ctx).fs.dirs,
                    RunDay(fs, config, ctx).fs.files[LogPath(ctx) := LogOf(RunDay(fs, config, ctx).fs, ctx) + LogLine(ctx, SummaryMsg(ctx))]))
  {
    var once := RunDay(fs, config, ctx).fs;
    RunSucceeded(fs, config, ctx);
    var b := Bootstrap(fs, ctx).fs;
    BootstrapReady(fs, ctx);
    BootstrapFrame(fs, ctx);
    var name := ConfiguredName(config.value);
    var day := Today(ctx, name.value, ScheduleOf(fs, ctx).value);
    EmitStep(b, ctx, day);
    EmitLog(b, ctx, day);
    EmitFiles(b, ctx, day);
    ReadyKept(b, once, ctx, {}, {ReportPath(ctx), WorkLogPath(ctx)}, {LogPath(ctx)});
    ComposeKept(b, once, name, ctx);
    RunAgain(once, config, ctx, day);
  }

  /** A project directory holding nothing yet. */
  const Empty := Fs({[]}, map[])

  /** A schedule holding one header line that matches no weekday yields no appointment. */
  lemma HeaderOnlyScan(header: string, weekday: string)
    requires '\n' !in header && !StartsWith(header, weekday) && weekday != ""
    ensures Scan(Split(header + "\n", '\n'), weekday) == Ok(Fragments("", ""))
  {
    assert header + "\n" == header + ['\n'] + "";
    SplitCons(header, "", '\n');
    var lines := Split(header + "\n", '\n');
    assert lines == [header, ""];
    NoMatchNoFragments(lines, weekday);
  }

  /** The freshly written recurring schedule has no appointment for any weekday. */
  lemma RecurringHeaderScan(weekday: string)
    requires weekday in Weekdays
    ensures Scan(Split(RecurringHeader, '\n'), weekday) == Ok(Fragments("", ""))
  {
    var header := "day_of_week,name,time";
    HeaderNeverMatches(weekday);
    assert RecurringHeader == header + "\n";
    HeaderOnlyScan(header, weekday);
  }

  /** Lines 26-39 on an empty project: every directory is made and the month line logged. */
  lemma FreshDirs(ctx: Context)
    requires WellFormed(ctx)
    ensures EnsureDirs(Empty, ctx) == Done(Fs(Made(ctx), map[LogPath(ctx) := LogLine(ctx, DirMsg(ctx))]))
  {
    PathsDistinct(ctx);
    PrefixesOf(UtilDir);
    PrefixesOf(LogDir);
    PrefixesOf(WorkDir(ctx));
    var a := MakeDirs(Empty, UtilDir);
    assert a == Done(Fs(Prefixes(UtilDir), map[]));
    var b := EnsureLogDir(a.fs);
    assert b == Done(Fs(Prefixes(UtilDir) + Prefixes(LogDir), map[]));
    var c := MakeDirs(b.fs, WorkDir(ctx));
    assert c == Done(Fs(Made(ctx), map[]));
    assert "" + LogLine(ctx, DirMsg(ctx)) == LogLine(ctx, DirMsg(ctx));
  }

  /** Where a run writes, on the directories it makes. */
  lemma MadeWritable(ctx: Context, files: map<Path, string>)
    requires WellFormed(ctx)
    ensures Writable(Fs(Made(ctx), files), TaskPath)
    ensures Writable(Fs(Made(ctx), files), SchedulePath)
    ensures Writable(Fs(Made(ctx), files), RecurringPath)
    ensures Writable(Fs(Made(ctx), files), ReportPath(ctx))
    ensures Writable(Fs(Made(ctx), files), WorkLogPath(ctx))
    ensures Writable(Fs(Made(ctx), files), LogPath(ctx))
  {
    PathsDistinct(ctx);
    MadeIs(ctx);
    assert Parent(TaskPath) == UtilDir && Parent(SchedulePath) == UtilDir && Parent(RecurringPath) == UtilDir;
  }

  /** Seed files whose directories exist, and a log that can be appended to, are all created. */
  lemma {:induction false} CreateAllSucceeds(fs: Fs, ctx: Context, seeds: seq<Seed>)
    requires SeedsApart(ctx, seeds) && Writable(fs, LogPath(ctx))
    requires forall i :: 0 <= i < |seeds| ==> Writable(fs, seeds[i].path)
    ensures CreateAll(fs, ctx, seeds).abort.None?
    decreases |seeds|
  {
    if seeds != [] {
      var a := CreateIfAbsent(fs, ctx, seeds[0].path, seeds[0].text);
      assert a.abort.None? && a.fs.dirs == fs.dirs;
      SeedsApartTail(ctx, seeds);
      forall i | 0 <= i < |seeds| - 1
        ensures Writable(a.fs, seeds[1..][i].path)
      {
        assert seeds[1..][i] == seeds[i + 1];
      }
      CreateAllSucceeds(a.fs, ctx, seeds[1..]);
    }
  }

  /** Lines 26-71 on an empty project: every directory and utility file is created and logged. */
  lemma FreshBootstrap(ctx: Context)
    requires WellFormed(ctx)
    ensures Bootstrap(Empty, ctx).abort.None?
    ensures Bootstrap(Empty, ctx).fs.dirs == Made(ctx)
    ensures TaskPath in Bootstrap(Empty, ctx).fs.files && Bootstrap(Empty, ctx).fs.files[TaskPath] == TaskTemplate
    ensures SchedulePath in Bootstrap(Empty, ctx).fs.files && Bootstrap(Empty, ctx).fs.files[SchedulePath] == ScheduleTemplate
    ensures RecurringPath in Bootstrap(Empty, ctx).fs.files && Bootstrap(Empty, ctx).fs.files[RecurringPath] == RecurringHeader
  {
    FreshDirs(ctx);
    var d := Fs(Made(ctx), map[LogPath(ctx) := LogLine(ctx, DirMsg(ctx))]);
    MadeWritable(ctx, d.files);
    UtilFilesApart(ctx);
    assert UtilFiles[0].path == TaskPath && UtilFiles[1].path == SchedulePath && UtilFiles[2].path == RecurringPath;
    CreateAllSucceeds(d, ctx, UtilFiles);
    CreateAllFrame(d, ctx, UtilFiles);
    PathsDistinct(ctx);
    CreateAllWrites(d, ctx, UtilFiles, 0);
    CreateAllWrites(d, ctx, UtilFiles, 1);
    CreateAllWrites(d, ctx, UtilFiles, 2);
  }

  /** After the bootstrap of an empty project, the only files are the utility files and the log. */
  lemma FreshBootstrapFiles(ctx: Context)
    requires WellFormed(ctx)
    ensures Bootstrap(Empty, ctx).fs.files.Keys == {TaskPath, SchedulePath, RecurringPath, LogPath(ctx)}
  {
    FreshBootstrap(ctx);
    FreshDirs(ctx);
    var d := Fs(Made(ctx), map[LogPath(ctx) := LogLine(ctx, DirMsg(ctx))]);
    assert Bootstrap(Empty, ctx) == CreateUtilFiles(d, ctx);
    UtilFilesApart(ctx);
    UtilFilesFrame(d, ctx);
    KeysAfterSeeds(d, CreateUtilFiles(d, ctx).fs, {TaskPath, SchedulePath, RecurringPath}, LogPath(ctx));
  }

  /** Creating the utility files touches only them and the log. */
  lemma UtilFilesFrame(d: Fs, ctx: Context)
    requires WellFormed(ctx)
    ensures Extends(d, CreateUtilFiles(d, ctx).fs, {}, {TaskPath, SchedulePath, RecurringPath}, {LogPath(ctx)})
  {
    UtilFilesApart(ctx);
    CreateAllFrame(d, ctx, UtilFiles);
    assert SeedPaths(UtilFiles) == {TaskPath, SchedulePath, RecurringPath};
  }

  /** A tree holding only the log, extended by creating the seeds: the seeds and the log are all its files. */
  lemma KeysAfterSeeds(d: Fs, b: Fs, created: set<Path>, log: Path)
    requires d.files.Keys == {log} && Extends(d, b, {}, created, {log})
    requires created <= b.files.Keys
    ensures b.files.Keys == created + {log}
  {
  }

  /** The day's files written on a tree holding the utility files and the log, below the run's directories. */
  lemma EmitFresh(b: Fs, ctx: Context, day: Day)
    requires WellFormed(ctx) && b.dirs == Made(ctx)
    requires b.files.Keys == {TaskPath, SchedulePath, RecurringPath, LogPath(ctx)}
    ensures Emit(b, ctx, day).abort.None?
    ensures Emit(b, ctx, day).fs.dirs == Made(ctx)
    ensures Emit(b, ctx, day).fs.files == b.files[ReportPath(ctx) := day.report][WorkLogPath(ctx) := day.workLog]
                                                [LogPath(ctx) := LogOf(b, ctx) + LogLine(ctx, SummaryMsg(ctx))]
  {
    MadeWritable(ctx, b.files);
    assert b == Fs(Made(ctx), b.files);
    PathsDistinct(ctx);
  }

  /** On an empty project the run reads the bare header back and emits a day without appointments. */
  lemma FirstRunEmits(config: string, ctx: Context)
    requires WellFormed(ctx) && ConfiguredName(config).Some?
    ensures Bootstrap(Empty, ctx).abort.None?
    ensures RunDay(Empty, Some(config), ctx)
         == Emit(Bootstrap(Empty, ctx).fs, ctx, Today(ctx, ConfiguredName(config).value, Fragments("", "")))
  {
    FreshBootstrap(ctx);
    RunOutcome(Empty, Some(config), ctx);
    RecurringHeaderScan(ctx.weekday);
    assert ScheduleOf(Empty, ctx) == Ok(Fragments("", ""));
  }

  /**
   * The first run in an empty project with a configured name makes every
   * directory, writes the three utility files with their initial texts, a
   * report without appointments and a work-time log holding only its header.
   */
  lemma FirstRun(config: string, ctx: Context)
    requires WellFormed(ctx) && ConfiguredName(config).Some?
    ensures RunDay(Empty, Some(config), ctx).abort.None?
    ensures RunDay(Empty, Some(config), ctx).fs.dirs == Made(ctx)
    ensures RunDay(Empty, Some(config), ctx).fs.files.Keys == Created(ctx) + {LogPath(ctx)}
    ensures RunDay(Empty, Some(config), ctx).fs.files[TaskPath] == TaskTemplate
    ensures RunDay(Empty, Some(config), ctx).fs.files[SchedulePath] == ScheduleTemplate
    ensures RunDay(Empty, Some(config), ctx).fs.files[RecurringPath] == RecurringHeader
    ensures RunDay(Empty, Some(config), ctx).fs.files[ReportPath(ctx)] == RenderReport(ConfiguredName(config).value, ctx.date, "")
    ensures RunDay(Empty, Some(config), ctx).fs.files[WorkLogPath(ctx)] == WorkTimeCsv("")
  {
    FirstRunEmits(config, ctx);
    FreshBootstrap(ctx);
    FreshBootstrapFiles(ctx);
    var b := Bootstrap(Empty, ctx).fs;
    var day := Today(ctx, ConfiguredName(config).value, Fragments("", ""));
    EmitFresh(b, ctx, day);
    PathsDistinct(ctx);
  }

  /** An empty project has nothing in place, so the bootstrap announces the month directories and each utility file. */
  lemma FreshCreationMsgs(ctx: Context)
    requires WellFormed(ctx)
    ensures CreationMsgs(Empty, ctx)
         == [DirMsg(ctx), FileMsg(ctx, TaskPath), FileMsg(ctx, SchedulePath), FileMsg(ctx, RecurringPath)]
  {
    assert !Exists(Empty, MonthDir(ctx));
    var seeds := UtilFiles;
    assert seeds[1..][1..][1..] == [];
    assert SeedMsgs(Empty, ctx, seeds[1..][1..]) == [FileMsg(ctx, RecurringPath)];
    assert SeedMsgs(Empty, ctx, seeds[1..]) == [FileMsg(ctx, SchedulePath), FileMsg(ctx, RecurringPath)];
  }

  /** The lines of four messages, one after the other. */
  lemma LogTextFour(ctx: Context, a: string, b: string, c: string, d: string)
    ensures LogText(ctx, [a, b, c, d]) == LogLine(ctx, a) + LogLine(ctx, b) + LogLine(ctx, c) + LogLine(ctx, d)
  {
    assert [a, b, c, d][..3] == [a, b, c];
    assert [a, b, c][..2] == [a, b];
    assert [a, b][..1] == [a];
    LogTextOne(ctx, a);
    assert LogText(ctx, [a, b]) == LogLine(ctx, a) + LogLine(ctx, b);
    assert LogText(ctx, [a, b, c]) == LogText(ctx, [a, b]) + LogLine(ctx, c);
  }

  /** The bootstrap of an empty project logs the month directories and the three utility files. */
  lemma FreshBootstrapLog(ctx: Context)
    requires WellFormed(ctx)
    ensures LogOf(Bootstrap(Empty, ctx).fs, ctx)
         == LogLine(ctx, DirMsg(ctx)) + LogLine(ctx, FileMsg(ctx, TaskPath)) + LogLine(ctx, FileMsg(ctx, SchedulePath))
            + LogLine(ctx, FileMsg(ctx, RecurringPath))
  {
    FreshBootstrap(ctx);
    var n := BootstrapLog(Empty, ctx);
    FreshCreationMsgs(ctx);
    var msgs := CreationMsgs(Empty, ctx);
    assert msgs[..n] == msgs;
    LogTextFour(ctx, DirMsg(ctx), FileMsg(ctx, TaskPath), FileMsg(ctx, SchedulePath), FileMsg(ctx, RecurringPath));
    assert "" + LogText(ctx, msgs) == LogText(ctx, msgs);
  }

  /** The first run's log: four creation lines and the closing line, with the run's time stamp. */
  lemma FirstRunLog(config: string, ctx: Context)
    requires WellFormed(ctx) && ConfiguredName(config).Some?
    ensures LogOf(RunDay(Empty, Some(config), ctx).fs, ctx)
         == LogLine(ctx, DirMsg(ctx)) + LogLine(ctx, FileMsg(ctx, TaskPath)) + LogLine(ctx, FileMsg(ctx, SchedulePath))
            + LogLine(ctx, FileMsg(ctx, RecurringPath)) + LogLine(ctx, SummaryMsg(ctx))
  {
    FirstRunEmits(config, ctx);
    FreshBootstrap(ctx);
    FreshBootstrapFiles(ctx);
    FreshBootstrapLog(ctx);
    var b := Bootstrap(Empty, ctx).fs;
    EmitFresh(b, ctx, Today(ctx, ConfiguredName(config).value, Fragments("", "")));
  }

  /**
   * Without a `name:` line the run never writes the report or the work-time
   * log and never logs the closing line: it stops with NameUndefined unless
   * an earlier step failed first.
   */
  lemma RunWithoutName(fs: Fs, config: string, ctx: Context)
    requires WellFormed(ctx) && Valid(fs) && ConfiguredName(config).None?
    ensures RunDay(fs, Some(config), ctx).abort.Some?
    ensures RunDay(fs, Some(config), ctx).fs == Bootstrap(fs, ctx).fs
    ensures Bootstrap(fs, ctx).abort.None? && RecurringPath !in fs.dirs && ScheduleOf(fs, ctx).Ok? ==>
              RunDay(fs, Some(config), ctx).abort == Some(NameUndefined)
    ensures Exists(RunDay(fs, Some(config), ctx).fs, ReportPath(ctx)) == Exists(fs, ReportPath(ctx))
    ensures Exists(RunDay(fs, Some(config), ctx).fs, WorkLogPath(ctx)) == Exists(fs, WorkLogPath(ctx))
  {
    RunOutcome(fs, Some(config), ctx);
    PathsDistinct(ctx);
    BootstrapKeeps(fs, ctx, ReportPath(ctx));
    BootstrapKeeps(fs, ctx, WorkLogPath(ctx));
  }
}
