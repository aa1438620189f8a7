/**
 * Daily_Report.py as the statement sequence it is: each step calls the
 * disk and stops at the first failing call, leaving what was already
 * written in place. Every method is proved to leave the disk as the
 * corresponding function of the `DailyReport` module describes, so the
 * properties proved there hold of this code.
 */
module Script {
  import opened Basics
  import opened Text
  import opened Config
  import opened Schedule
  import opened FileSystem
  import opened Storage
  import DailyReport

  /** `write_log` (lines 32-35). */
  method WriteLog(disk: Disk, ctx: DailyReport.Context, msg: string) returns (failure: Option<Failure>)
    modifies disk
    ensures Effect(disk.State(), failure) == DailyReport.WriteLog(old(disk.State()), ctx, msg)
  {
    failure := disk.Append(DailyReport.LogPath(ctx), DailyReport.LogLine(ctx, msg));
  }

  /** Lines 26-39. */
  method EnsureDirs(disk: Disk, ctx: DailyReport.Context) returns (failure: Option<Failure>)
    modifies disk
    ensures Effect(disk.State(), failure) == DailyReport.EnsureDirs(old(disk.State()), ctx)
  {
    failure := disk.MakeDirs(DailyReport.UtilDir);
    if failure.Some? {
      return;
    }
    ghost var a := disk.State();
    var there := disk.PathExists(DailyReport.LogDir);
    if !there {
      failure := disk.MakeDirs(DailyReport.LogDir);
      if failure.Some? {
        return;
      }
    }
    assert DailyReport.EnsureLogDir(a) == Done(disk.State());
    there := disk.PathExists(DailyReport.MonthDir(ctx));
    if !there {
      failure := disk.MakeDirs(DailyReport.WorkDir(ctx));
      if failure.Some? {
        return;
      }
      failure := WriteLog(disk, ctx, DailyReport.DirMsg(ctx));
    }
  }

  /** Lines 44-52, 57-65 and 69-71. */
  method CreateIfAbsent(disk: Disk, ctx: DailyReport.Context, p: Path, text: string) returns (failure: Option<Failure>)
    modifies disk
    ensures Effect(disk.State(), failure) == DailyReport.CreateIfAbsent(old(disk.State()), ctx, p, text)
  {
    var there := disk.PathExists(p);
    if there {
      return None;
    }
    failure := disk.Write(p, text);
    if failure.Some? {
      return;
    }
    failure := WriteLog(disk, ctx, DailyReport.FileMsg(ctx, p));
  }

  /** Lines 26-71: the directories, then the three utility files in order. */
  method Bootstrap(disk: Disk, ctx: DailyReport.Context) returns (failure: Option<Failure>)
    modifies disk
    ensures Effect(disk.State(), failure) == DailyReport.Bootstrap(old(disk.State()), ctx)
  {
    failure := EnsureDirs(disk, ctx);
    if failure.Some? {
      return;
    }
    ghost var seeds := DailyReport.UtilFiles;
    ghost var s0 := disk.State();
    assert DailyReport.Bootstrap(old(disk.State()), ctx) == DailyReport.CreateAll(s0, ctx, seeds);
    failure := CreateIfAbsent(disk, ctx, DailyReport.TaskPath, DailyReport.TaskTemplate);
    assert seeds[0] == DailyReport.Seed(DailyReport.TaskPath, DailyReport.TaskTemplate);
    if failure.Some? {
      assert DailyReport.CreateAll(s0, ctx, seeds) == Effect(disk.State(), failure);
      return;
    }
    ghost var s1 := disk.State();
    assert DailyReport.CreateAll(s0, ctx, seeds) == DailyReport.CreateAll(s1, ctx, seeds[1..]);
    failure := CreateIfAbsent(disk, ctx, DailyReport.SchedulePath, DailyReport.ScheduleTemplate);
    assert seeds[1..][0] == DailyReport.Seed(DailyReport.SchedulePath, DailyReport.ScheduleTemplate);
    if failure.Some? {
      assert DailyReport.CreateAll(s1, ctx, seeds[1..]) == Effect(disk.State(), failure);
      return;
    }
    ghost var s2 := disk.State();
    assert DailyReport.CreateAll(s1, ctx, seeds[1..]) == DailyReport.CreateAll(s2, ctx, seeds[1..][1..]);
    failure := CreateIfAbsent(disk, ctx, DailyReport.RecurringPath, DailyReport.RecurringHeader);
    assert seeds[1..][1..][0] == DailyReport.Seed(DailyReport.RecurringPath, DailyReport.RecurringHeader);
    assert seeds[1..][1..][1..] == [];
    assert DailyReport.CreateAll(s2, ctx, seeds[1..][1..]) == Effect(disk.State(), failure);
  }

  /** Lines 73-113: read the recurring schedule, match today's lines and render the two texts. */
  method Compose(disk: Disk, name: Option<string>, ctx: DailyReport.Context) returns (r: Result<DailyReport.Day>)
    ensures r == DailyReport.Compose(disk.State(), name, ctx)
  {
    var text := disk.Read(DailyReport.RecurringPath);
    if text.Err? {
      return Err(text.failure);
    }
    var frag := MatchSchedule(Split(text.value, '\n'), ctx.weekday);
    if frag.Err? {
      return Err(frag.failure);
    }
    if name.None? {
      return Err(NameUndefined);
    }
    r := Ok(DailyReport.Today(ctx, name.value, frag.value));
  }

  /** Lines 107-119. */
  method Emit(disk: Disk, ctx: DailyReport.Context, day: DailyReport.Day) returns (failure: Option<Failure>)
    modifies disk
    ensures Effect(disk.State(), failure) == DailyReport.Emit(old(disk.State()), ctx, day)
  {
    var there := disk.PathExists(DailyReport.ReportPath(ctx));
    if !there {
      failure := disk.Write(DailyReport.ReportPath(ctx), day.report);
      if failure.Some? {
        return;
      }
    }
    ghost var a := disk.State();
    there := disk.PathExists(DailyReport.WorkLogPath(ctx));
    if !there {
      failure := disk.Write(DailyReport.WorkLogPath(ctx), day.workLog);
      if failure.Some? {
        return;
      }
    }
    assert DailyReport.WriteIfAbsent(a, DailyReport.WorkLogPath(ctx), day.workLog) == Done(disk.State());
    failure := WriteLog(disk, ctx, DailyReport.SummaryMsg(ctx));
  }

  /**
   * The whole script: `config` is the text of `config.txt`, or nothing when
   * it cannot be opened. The disk ends as `DailyReport.RunDay` says, and the
   * failure returned is the exception that ends the run, if any.
   */
  method Run(disk: Disk, config: Option<string>, ctx: DailyReport.Context) returns (failure: Option<Failure>)
    modifies disk
    ensures Effect(disk.State(), failure) == DailyReport.RunDay(old(disk.State()), config, ctx)
  {
    if config.None? {
      return Some(ConfigNotFound);
    }
    var name := ReadName(config.value);
    failure := Bootstrap(disk, ctx);
    if failure.Some? {
      return;
    }
    var day := Compose(disk, name, ctx);
    if day.Err? {
      return Some(day.failure);
    }
    failure := Emit(disk, ctx, day.value);
  }
}
