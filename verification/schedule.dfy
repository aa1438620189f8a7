/**
 * The recurring-schedule matcher (Daily_Report.py, lines 73-81). Each line
 * of `reguler_schedule.csv` that starts with today's weekday abbreviation
 * adds a `,<name>,<time>` row to the work-time fragment and a `== <name>`
 * heading to the report fragment; a matching line with fewer than three
 * comma-separated fields raises IndexError.
 */
module Schedule {
  import opened Basics
  import opened Text

  /** The two texts the loop accumulates: `reguler_line` and `reguler_line2`. */
  datatype Fragments = Fragments(csv: string, headings: string)

  /** A recurring appointment: the second and third fields of a schedule line. */
  datatype Entry = Entry(name: string, time: string)

  /** `line.split(',')` */
  function Fields(line: string): seq<string>
  {
    Split(line, ',')
  }

  /** The line has the three fields the loop indexes. */
  predicate Complete(line: string)
  {
    |Fields(line)| >= 3
  }

  function EntryOf(line: string): Entry
    requires Complete(line)
  {
    Entry(Fields(line)[1], Fields(line)[2])
  }

  /** `f",{name},{time}\n"` */
  function CsvRow(e: Entry): string
  {
    "," + e.name + "," + e.time + "\n"
  }

  /** `f"== {name} \n\n"` */
  function Heading(e: Entry): string
  {
    "== " + e.name + " \n\n"
  }

  /**
   * What the loop has accumulated after the given lines: the two fragments,
   * or the IndexError raised at the first matching line that lacks a field.
   */
  function Scan(lines: seq<string>, weekday: string): Result<Fragments>
  {
    if lines == [] then Ok(Fragments("", ""))
    else
      var acc :- Scan(lines[..|lines| - 1], weekday);
      var line := lines[|lines| - 1];
      if !StartsWith(line, weekday) then Ok(acc)
      else if !Complete(line) then Err(ScheduleFieldMissing(line))
      else Ok(Fragments(acc.csv + CsvRow(EntryOf(line)), acc.headings + Heading(EntryOf(line))))
  }

  /** The loop of lines 75-81. */
  method MatchSchedule(lines: seq<string>, weekday: string) returns (r: Result<Fragments>)
    ensures r == Scan(lines, weekday)
  {
    var csv, headings := "", "";
    for k := 0 to |lines|
      invariant Scan(lines[..k], weekday) == Ok(Fragments(csv, headings))
    {
      var line := lines[k];
      assert lines[..k + 1][..k] == lines[..k];
      if StartsWith(line, weekday) {
        var fields := Split(line, ',');
        if |fields| < 3 {
          ScanStopsAtFailure(lines, weekday, k + 1);
          return Err(ScheduleFieldMissing(line));
        }
        csv := csv + ("," + fields[1] + "," + fields[2] + "\n");
        headings := headings + ("== " + fields[1] + " \n\n");
      }
    }
    assert lines[..|lines|] == lines;
    r := Ok(Fragments(csv, headings));
  }

  /** Once the scan has failed, the lines after that do not change the outcome. */
  lemma {:induction false} ScanStopsAtFailure(lines: seq<string>, weekday: string, n: nat)
    requires n <= |lines| && Scan(lines[..n], weekday).Err?
    ensures Scan(lines, weekday) == Scan(lines[..n], weekday)
    decreases |lines| - n
  {
    if n < |lines| {
      var init := lines[..|lines| - 1];
      assert init[..n] == lines[..n];
      ScanStopsAtFailure(init, weekday, n);
    } else {
      assert lines[..n] == lines;
    }
  }

  /** The lines that start with the weekday, in file order. */
  function Matching(lines: seq<string>, weekday: string): (rows: seq<string>)
    ensures |rows| <= |lines|
    ensures forall k :: 0 <= k < |rows| ==> StartsWith(rows[k], weekday)
  {
    if lines == [] then []
    else
      var line := lines[|lines| - 1];
      Matching(lines[..|lines| - 1], weekday) + (if StartsWith(line, weekday) then [line] else [])
  }

  /** The entries the matching rows describe. */
  function Entries(rows: seq<string>): (es: seq<Entry>)
    requires forall k :: 0 <= k < |rows| ==> Complete(rows[k])
    ensures |es| == |rows|
  {
    seq(|rows|, k requires 0 <= k < |rows| => EntryOf(rows[k]))
  }

  /** One `,<name>,<time>` row per entry. */
  function CsvText(es: seq<Entry>): string
  {
    if es == [] then "" else CsvRow(es[0]) + CsvText(es[1..])
  }

  /** One `== <name>` heading per entry. */
  function HeadingsText(es: seq<Entry>): string
  {
    if es == [] then "" else Heading(es[0]) + HeadingsText(es[1..])
  }

  lemma {:induction false} CsvTextSnoc(es: seq<Entry>, e: Entry)
    ensures CsvText(es + [e]) == CsvText(es) + CsvRow(e)
  {
    if es == [] {
      assert es + [e] == [e];
    } else {
      assert (es + [e])[1..] == es[1..] + [e];
      CsvTextSnoc(es[1..], e);
    }
  }

  lemma {:induction false} HeadingsTextSnoc(es: seq<Entry>, e: Entry)
    ensures HeadingsText(es + [e]) == HeadingsText(es) + Heading(e)
  {
    if es == [] {
      assert es + [e] == [e];
    } else {
      assert (es + [e])[1..] == es[1..] + [e];
      HeadingsTextSnoc(es[1..], e);
    }
  }

  /** A scan is complete when every line it matches has the three fields. */
  predicate MatchesComplete(lines: seq<string>, weekday: string)
  {
    forall k :: 0 <= k < |lines| && StartsWith(lines[k], weekday) ==> Complete(lines[k])
  }

  /**
   * When every matching line has its fields, the scan emits exactly one CSV
   * row and one heading per matching line, in file order, and nothing for
   * the other lines.
   */
  lemma {:induction false} ScanSucceeds(lines: seq<string>, weekday: string)
    requires MatchesComplete(lines, weekday)
    ensures forall k :: 0 <= k < |Matching(lines, weekday)| ==> Complete(Matching(lines, weekday)[k])
    ensures Scan(lines, weekday)
         == Ok(Fragments(CsvText(Entries(Matching(lines, weekday))),
                         HeadingsText(Entries(Matching(lines, weekday)))))
  {
    if lines != [] {
      var init := lines[..|lines| - 1];
      var line := lines[|lines| - 1];
      assert forall k :: 0 <= k < |init| ==> init[k] == lines[k];
      ScanSucceeds(init, weekday);
      var es := Entries(Matching(init, weekday));
      if StartsWith(line, weekday) {
        assert Complete(line);
        assert Entries(Matching(lines, weekday)) == es + [EntryOf(line)];
        CsvTextSnoc(es, EntryOf(line));
        HeadingsTextSnoc(es, EntryOf(line));
      } else {
        assert Matching(lines, weekday) == Matching(init, weekday);
      }
    }
  }

  /** The scan fails exactly at the first matching line that lacks a field. */
  lemma {:induction false} ScanFails(lines: seq<string>, weekday: string, i: nat)
    requires i < |lines| && StartsWith(lines[i], weekday) && !Complete(lines[i])
    requires MatchesComplete(lines[..i], weekday)
    ensures Scan(lines, weekday) == Err(ScheduleFieldMissing(lines[i]))
  {
    var init := lines[..|lines| - 1];
    if i == |lines| - 1 {
      assert init == lines[..i];
      ScanSucceeds(init, weekday);
    } else {
      assert init[..i] == lines[..i] && init[i] == lines[i];
      ScanFails(init, weekday, i);
    }
  }

  /** With no line for today's weekday, both fragments are empty. */
  lemma NoMatchNoFragments(lines: seq<string>, weekday: string)
    requires forall k :: 0 <= k < |lines| ==> !StartsWith(lines[k], weekday)
    ensures Scan(lines, weekday) == Ok(Fragments("", ""))
  {
    ScanSucceeds(lines, weekday);
    MatchingEmpty(lines, weekday);
  }

  /** No line is kept exactly when no line starts with the weekday. */
  lemma {:induction false} MatchingEmpty(lines: seq<string>, weekday: string)
    ensures Matching(lines, weekday) == [] <==> forall k :: 0 <= k < |lines| ==> !StartsWith(lines[k], weekday)
  {
    if lines != [] {
      var init := lines[..|lines| - 1];
      assert forall k :: 0 <= k < |init| ==> init[k] == lines[k];
      MatchingEmpty(init, weekday);
    }
  }

  /** Weekday abbreviations as `%a` renders them in the C locale. */
  const Weekdays := ["Mon", "Tue", "Wed", "Thu", "Fri", "Sat", "Sun"]

  /** The header line `day_of_week,name,time` is scanned too, but never matches a weekday. */
  lemma HeaderNeverMatches(weekday: string)
    requires weekday in Weekdays
    ensures !StartsWith("day_of_week,name,time", weekday)
  {
    assert "day_of_week,name,time"[..3] == "day";
  }

  /** The fields of a line `<weekday>,<name>,<time>` whose parts hold no comma. */
  lemma FieldsOfRow(weekday: string, name: string, time: string)
    requires ',' !in weekday && ',' !in name && ',' !in time
    ensures Fields(weekday + "," + name + "," + time) == [weekday, name, time]
  {
    assert weekday + "," + name + "," + time == weekday + [','] + (name + [','] + time);
    SplitCons(weekday, name + [','] + time, ',');
    SplitCons(name, time, ',');
  }

  /**
   * A line `<weekday>,<name>,<time>` for today yields the row `,<name>,<time>`
   * and the heading `== <name>` (for instance `Mon,StandupMeeting,09:00`).
   */
  lemma OneAppointment(weekday: string, name: string, time: string)
    requires ',' !in weekday && ',' !in name && ',' !in time
    ensures Scan([weekday + "," + name + "," + time], weekday)
         == Ok(Fragments(CsvRow(Entry(name, time)), Heading(Entry(name, time))))
  {
    var line := weekday + "," + name + "," + time;
    FieldsOfRow(weekday, name, time);
    assert StartsWith(line, weekday) by { assert line[..|weekday|] == weekday; }
    ScanOne(line, weekday);
  }

  lemma ScanOne(line: string, weekday: string)
    requires StartsWith(line, weekday) && Complete(line)
    ensures Scan([line], weekday) == Ok(Fragments(CsvRow(EntryOf(line)), Heading(EntryOf(line))))
  {
    var none: seq<string> := [];
    assert [line][..0] == none;
    var acc := Fragments("", "");
    assert Scan([line], weekday) == Ok(Fragments(acc.csv + CsvRow(EntryOf(line)), acc.headings + Heading(EntryOf(line))));
    assert "" + CsvRow(EntryOf(line)) == CsvRow(EntryOf(line));
    assert "" + Heading(EntryOf(line)) == Heading(EntryOf(line));
  }
}
