/**
 * The two texts the script writes for a day (Daily_Report.py, lines 83-105
 * and 111-113): the AsciiDoc report, whose template is passed once through
 * `.replace("\n\n", "\n")`, and the work-time CSV.
 */
module Render {
  import opened Text
  import opened Schedule

  /** `text.replace("\n\n", "\n")`: a single left-to-right pass over the text. */
  function CollapseBlankLines(s: string): (r: string)
    ensures |r| <= |s|
  {
    Replace(s, "\n\n", "\n")
  }

  /** The pass leaves a text unchanged exactly when it holds no doubled line break. */
  lemma CollapseUnchangedIff(s: string)
    ensures CollapseBlankLines(s) == s <==> !Contains(s, "\n\n")
  {
    ReplaceUnchangedIff(s, "\n\n", "\n");
  }

  /** The pass only removes line breaks: all other characters survive, in order. */
  lemma CollapseKeepsText(s: string)
    ensures Erase(CollapseBlankLines(s), '\n') == Erase(s, '\n')
  {
    assert Erase("\n", '\n') == [] by { assert "\n"[1..] == []; }
    assert Erase("\n\n", '\n') == [] by { assert "\n\n"[1..] == "\n"; }
    ReplaceKeepsOthers(s, "\n\n", "\n", '\n');
  }

  /** One pass is not a full collapse: three line breaks become two. */
  lemma CollapseNotComplete(s: string)
    requires s == "\n\n\n"
    ensures CollapseBlankLines(s) == "\n\n" && Contains(CollapseBlankLines(s), "\n\n")
  {
    assert StartsWith(s, "\n\n");
    assert s[2..] == "\n";
    assert !StartsWith("\n", "\n\n");
    assert "\n"[1..] == [];
    assert Replace("\n", "\n\n", "\n") == "\n";
    assert OccursAt("\n\n", "\n\n", 0);
  }

  /** A doubled line break at the front becomes a single one. */
  lemma CollapsePair(rest: string)
    ensures CollapseBlankLines("\n\n" + rest) == "\n" + CollapseBlankLines(rest)
  {
    var s := "\n\n" + rest;
    assert s[..2] == "\n\n" && s[2..] == rest;
  }

  /** Text without line breaks passes through unchanged. */
  lemma {:induction false} CollapseLine(line: string, rest: string)
    requires '\n' !in line
    ensures CollapseBlankLines(line + rest) == line + CollapseBlankLines(rest)
  {
    if line != [] {
      var s := line + rest;
      assert s[0] == line[0] && s[1..] == line[1..] + rest;
      assert !StartsWith(s, "\n\n");
      CollapseLine(line[1..], rest);
      assert line == [line[0]] + line[1..];
    } else {
      assert line + rest == rest;
    }
  }

  /** A single line break before text that does not start with one is kept. */
  lemma {:induction false} CollapseSingleBreak(t: string)
    requires t == [] || t[0] != '\n'
    ensures CollapseBlankLines("\n" + t) == "\n" + CollapseBlankLines(t)
  {
    var s := "\n" + t;
    assert s[0] == '\n' && s[1..] == t;
    assert !StartsWith(s, "\n\n");
  }

  /** One more clean line in front of clean text that passes through. */
  lemma {:induction false} CollapseLineStep(line: string, tail: string, rest: string)
    requires '\n' !in line && tail != [] && tail[0] != '\n'
    requires CollapseBlankLines(tail + rest) == tail + CollapseBlankLines(rest)
    ensures CollapseBlankLines(line + ['\n'] + tail + rest) == line + ['\n'] + tail + CollapseBlankLines(rest)
  {
    assert (tail + rest)[0] == tail[0];
    CollapseSingleBreak(tail + rest);
    CollapseLine(line, "\n" + (tail + rest));
    assert line + ['\n'] + tail + rest == line + ("\n" + (tail + rest));
  }

  /** Non-empty lines joined by single line breaks contain no blank line, so they pass through. */
  lemma {:induction false} CollapseLines(lines: seq<string>, rest: string)
    requires |lines| >= 1
    requires forall k :: 0 <= k < |lines| ==> lines[k] != [] && '\n' !in lines[k]
    ensures CollapseBlankLines(Join(lines, '\n') + rest) == Join(lines, '\n') + CollapseBlankLines(rest)
  {
    if |lines| == 1 {
      CollapseLine(lines[0], rest);
    } else {
      CollapseLines(lines[1..], rest);
      JoinStartsWith(lines[1..]);
      CollapseLineStep(lines[0], Join(lines[1..], '\n'), rest);
    }
  }

  lemma JoinStartsWith(lines: seq<string>)
    requires |lines| >= 1 && lines[0] != []
    ensures Join(lines, '\n') != [] && Join(lines, '\n')[0] == lines[0][0]
  {
  }

  /** Each paragraph followed by a blank line: the layout of the report template. */
  function Paragraphs(ps: seq<string>): string
  {
    if ps == [] then "" else ps[0] + "\n\n" + Paragraphs(ps[1..])
  }

  /** The document header: title, author, revision date and attributes. */
  function HeaderLines(name: string, revdate: string): seq<string>
  {
    ["= 日報", ":author: " + name, ":revdate: " + revdate,
     ":doctype: article", ":icons: font", ":toc: macro", ":sectnums:"]
  }

  const IncludeTask := "include::../utils/CurrentTask.adoc[]"
  const IncludeSchedule := "include::../utils/CurrentSchedule.adoc[]"
  const WorkLines := ["== 業務内容(Template)", "* 現在", "* 完了", "* 課題"]
  const CommentLines := ["== コメント・所感", "// 感想や気づき、チームへの共有事項など自由記述"]

  /** The f-string of lines 83-104, with the author, the date and the heading fragment filled in. */
  function ReportTemplate(name: string, revdate: string, headings: string): string
  {
    Paragraphs([Join(HeaderLines(name, revdate), '\n'), IncludeTask, IncludeSchedule,
                headings, Join(WorkLines, '\n'), Join(CommentLines, '\n')])
  }

  /** The report text of line 105. */
  function RenderReport(name: string, revdate: string, headings: string): string
  {
    CollapseBlankLines(ReportTemplate(name, revdate, headings))
  }

  /** Each heading on its own line, without the blank line the fragment puts after it. */
  function HeadingLines(es: seq<Entry>): seq<string>
  {
    seq(|es|, k requires 0 <= k < |es| => "== " + es[k].name + " ")
  }

  /** A block of clean lines followed by a blank line keeps one line break. */
  lemma CollapseBlock(lines: seq<string>, rest: string)
    requires |lines| >= 1
    requires forall k :: 0 <= k < |lines| ==> lines[k] != [] && '\n' !in lines[k]
    ensures CollapseBlankLines(Join(lines, '\n') + "\n\n" + rest)
         == Join(lines, '\n') + "\n" + CollapseBlankLines(rest)
  {
    var p := Join(lines, '\n');
    assert p + "\n\n" + rest == p + ("\n\n" + rest);
    CollapseLines(lines, "\n\n" + rest);
    CollapsePair(rest);
  }

  /** A heading line followed by a blank line keeps one line break. */
  lemma {:induction false} CollapseTitle(title: string, more: string)
    requires '\n' !in title
    ensures CollapseBlankLines(title + "\n\n" + more) == title + "\n" + CollapseBlankLines(more)
  {
    assert title + "\n\n" + more == title + ("\n\n" + more);
    CollapseLine(title, "\n\n" + more);
    CollapsePair(more);
  }

  lemma {:induction false} HeadingsTextCons(es: seq<Entry>, rest: string)
    requires es != []
    ensures HeadingsText(es) + rest == "== " + es[0].name + " " + "\n\n" + (HeadingsText(es[1..]) + rest)
  {
    assert Heading(es[0]) == "== " + es[0].name + " " + "\n\n";
  }

  lemma {:induction false} HeadingLinesCons(es: seq<Entry>)
    requires es != []
    ensures Terminated(HeadingLines(es), '\n')
         == "== " + es[0].name + " " + "\n" + Terminated(HeadingLines(es[1..]), '\n')
  {
    assert HeadingLines(es)[0] == "== " + es[0].name + " ";
    assert HeadingLines(es)[1..] == HeadingLines(es[1..]);
  }

  /** One heading in front of a fragment whose pass is known. */
  lemma {:induction false} CollapseHeadingStep(title: string, more: string, tail: string, rest: string)
    requires '\n' !in title
    requires CollapseBlankLines(more) == tail + CollapseBlankLines(rest)
    ensures CollapseBlankLines(title + "\n\n" + more) == (title + "\n" + tail) + CollapseBlankLines(rest)
  {
    CollapseTitle(title, more);
  }

  /** The heading fragment loses the blank line after every heading. */
  lemma {:induction false} CollapseHeadings(es: seq<Entry>, rest: string)
    requires forall k :: 0 <= k < |es| ==> '\n' !in es[k].name
    ensures CollapseBlankLines(HeadingsText(es) + rest)
         == Terminated(HeadingLines(es), '\n') + CollapseBlankLines(rest)
  {
    if es != [] {
      var title := "== " + es[0].name + " ";
      CollapseHeadings(es[1..], rest);
      HeadingsTextCons(es, rest);
      HeadingLinesCons(es);
      CollapseHeadingStep(title, HeadingsText(es[1..]) + rest, Terminated(HeadingLines(es[1..]), '\n'), rest);
    } else {
      assert HeadingsText(es) + rest == rest;
    }
  }

  /** Non-empty lines without line breaks. */
  predicate CleanLines(lines: seq<string>)
  {
    forall k :: 0 <= k < |lines| ==> lines[k] != [] && '\n' !in lines[k]
  }

  lemma ParagraphsCons(p: string, ps: seq<string>)
    ensures Paragraphs([p] + ps) == p + "\n\n" + Paragraphs(ps)
  {
    assert ([p] + ps)[1..] == ps;
  }

  /** A block of clean lines followed by a blank line, as the template lays it out. */
  lemma CollapseParagraph(lines: seq<string>, ps: seq<string>)
    requires |lines| >= 1 && CleanLines(lines)
    ensures CollapseBlankLines(Paragraphs([Join(lines, '\n')] + ps))
         == Terminated(lines, '\n') + CollapseBlankLines(Paragraphs(ps))
  {
    ParagraphsCons(Join(lines, '\n'), ps);
    CollapseBlock(lines, Paragraphs(ps));
    TerminatedJoin(lines, '\n');
  }

  /** The two closing sections lose the blank line after each. */
  lemma {:induction false} CollapseSections(work: seq<string>, comment: seq<string>)
    requires |work| >= 1 && |comment| >= 1 && CleanLines(work) && CleanLines(comment)
    ensures CollapseBlankLines(Paragraphs([Join(work, '\n'), Join(comment, '\n')])) == Terminated(work + comment, '\n')
  {
    assert [Join(work, '\n'), Join(comment, '\n')] == [Join(work, '\n')] + [Join(comment, '\n')];
    CollapseParagraph(work, [Join(comment, '\n')]);
    assert [Join(comment, '\n')] == [Join(comment, '\n')] + [];
    CollapseParagraph(comment, []);
    assert CollapseBlankLines(Paragraphs([])) == [];
    TerminatedAppend(work, comment, '\n');
  }

  /** The heading fragment, then the closing sections: the one blank line of the report survives. */
  lemma {:induction false} CollapseBody(es: seq<Entry>, tail: seq<string>)
    requires forall k :: 0 <= k < |es| ==> '\n' !in es[k].name
    ensures CollapseBlankLines(Paragraphs([HeadingsText(es)] + tail))
         == Terminated(HeadingLines(es), '\n') + ("\n" + CollapseBlankLines(Paragraphs(tail)))
  {
    ParagraphsCons(HeadingsText(es), tail);
    assert HeadingsText(es) + "\n\n" + Paragraphs(tail) == HeadingsText(es) + ("\n\n" + Paragraphs(tail));
    CollapseHeadings(es, "\n\n" + Paragraphs(tail));
    CollapsePair(Paragraphs(tail));
  }

  /** The header and the two include lines pass through with one line break each. */
  lemma {:induction false} CollapseTop(header: seq<string>, includes: seq<string>, middle: seq<string>)
    requires |header| >= 1 && |includes| == 2 && CleanLines(header) && CleanLines(includes)
    ensures CollapseBlankLines(Paragraphs([Join(header, '\n'), includes[0], includes[1]] + middle))
         == Terminated(header + includes, '\n') + CollapseBlankLines(Paragraphs(middle))
  {
    var upper := [includes[1]] + middle;
    var top := [includes[0]] + upper;
    assert [Join(header, '\n'), includes[0], includes[1]] + middle == [Join(header, '\n')] + top;
    CollapseParagraph(header, top);
    assert Join([includes[0]], '\n') == includes[0];
    CollapseParagraph([includes[0]], upper);
    assert Join([includes[1]], '\n') == includes[1];
    CollapseParagraph([includes[1]], middle);
    assert includes == [includes[0]] + [includes[1]];
    TerminatedAppend([includes[0]], [includes[1]], '\n');
    TerminatedAppend(header, includes, '\n');
  }

  lemma SixPieces(a: string, b: string, c: string, d: string, e: string, f: string)
    ensures [a, b, c, d, e, f] == [a, b, c] + ([d] + [e, f])
  {
  }

  /** The template's layout with any clean header, includes and sections. */
  lemma {:induction false} CollapseLayout(header: seq<string>, includes: seq<string>, es: seq<Entry>,
                       work: seq<string>, comment: seq<string>)
    requires |header| >= 1 && |includes| == 2 && |work| >= 1 && |comment| >= 1
    requires CleanLines(header) && CleanLines(includes) && CleanLines(work) && CleanLines(comment)
    requires forall k :: 0 <= k < |es| ==> '\n' !in es[k].name
    ensures CollapseBlankLines(Paragraphs([Join(header, '\n'), includes[0], includes[1], HeadingsText(es),
                                           Join(work, '\n'), Join(comment, '\n')]))
         == Terminated(header + includes, '\n') + Terminated(HeadingLines(es), '\n') + "\n"
            + Terminated(work + comment, '\n')
  {
    var tail := [Join(work, '\n'), Join(comment, '\n')];
    var middle := [HeadingsText(es)] + tail;
    SixPieces(Join(header, '\n'), includes[0], includes[1], HeadingsText(es), Join(work, '\n'), Join(comment, '\n'));
    CollapseTop(header, includes, middle);
    CollapseBody(es, tail);
    CollapseSections(work, comment);
    var hi, hl, wc := Terminated(header + includes, '\n'), Terminated(HeadingLines(es), '\n'), Terminated(work + comment, '\n');
    assert hi + (hl + ("\n" + wc)) == hi + hl + "\n" + wc;
  }

  /**
   * The rendered report: every blank line of the template is gone except
   * the one that follows the heading fragment, so with no appointment the
   * schedule include and the work-content section are one blank line
   * apart, and otherwise each appointment is a `== <name>` line between them.
   */
  lemma {:induction false} ReportShape(name: string, revdate: string, es: seq<Entry>)
    requires '\n' !in name && '\n' !in revdate
    requires forall k :: 0 <= k < |es| ==> '\n' !in es[k].name
    ensures RenderReport(name, revdate, HeadingsText(es))
         == Terminated(HeaderLines(name, revdate) + [IncludeTask, IncludeSchedule], '\n')
            + Terminated(HeadingLines(es), '\n') + "\n"
            + Terminated(WorkLines + CommentLines, '\n')
  {
    HeaderClean(name, revdate);
    TemplateLinesClean();
    CollapseLayout(HeaderLines(name, revdate), [IncludeTask, IncludeSchedule], es, WorkLines, CommentLines);
  }

  lemma HeaderClean(name: string, revdate: string)
    requires '\n' !in name && '\n' !in revdate
    ensures CleanLines(HeaderLines(name, revdate))
  {
  }

  lemma TemplateLinesClean()
    ensures CleanLines([IncludeTask, IncludeSchedule]) && CleanLines(WorkLines) && CleanLines(CommentLines)
  {
    IncludesClean();
    WorkLinesClean();
    CommentLinesClean();
  }

  lemma IncludesClean()
    ensures CleanLines([IncludeTask, IncludeSchedule])
  {
  }

  lemma WorkLinesClean()
    ensures CleanLines(WorkLines)
  {
  }

  lemma CommentLinesClean()
    ensures CleanLines(CommentLines)
  {
  }

  /** The header row of the work-time log. */
  const WorkTimeHeader := "species,task,time"

  /** The CSV text of lines 111-113: the header, the rows fragment, and one more line break. */
  function WorkTimeCsv(rows: string): string
  {
    WorkTimeHeader + "\n" + rows + "\n"
  }

  /** The `,<name>,<time>` rows of the entries, without their line breaks. */
  function RowTexts(es: seq<Entry>): seq<string>
  {
    seq(|es|, k requires 0 <= k < |es| => "," + es[k].name + "," + es[k].time)
  }

  lemma {:induction false} CsvTextRows(es: seq<Entry>)
    ensures CsvText(es) == Terminated(RowTexts(es), '\n')
  {
    if es != [] {
      CsvTextRows(es[1..]);
      assert RowTexts(es) == [RowTexts(es)[0]] + RowTexts(es[1..]);
    }
  }

  /**
   * Read back as lines, the work-time log is the header, one `,<name>,<time>`
   * row per appointment, one empty line, and the empty piece after the final
   * line break; with no appointment that is the header and one empty line.
   */
  lemma {:induction false} WorkTimeLines(es: seq<Entry>)
    requires forall k :: 0 <= k < |es| ==> '\n' !in es[k].name && '\n' !in es[k].time
    ensures Split(WorkTimeCsv(CsvText(es)), '\n') == [WorkTimeHeader] + RowTexts(es) + ["", ""]
  {
    RowTextsClean(es);
    CsvTextRows(es);
    HeaderThenLines(WorkTimeHeader, RowTexts(es));
  }

  /** A line, then line-terminated rows, then one more line break, split back into lines. */
  lemma HeaderThenLines(header: string, rows: seq<string>)
    requires '\n' !in header
    requires forall k :: 0 <= k < |rows| ==> '\n' !in rows[k]
    ensures Split(header + "\n" + Terminated(rows, '\n') + "\n", '\n') == [header] + rows + ["", ""]
  {
    var body := Terminated(rows, '\n') + "\n";
    calc {
      Split(header + "\n" + Terminated(rows, '\n') + "\n", '\n');
      { assert header + "\n" + Terminated(rows, '\n') + "\n" == header + ['\n'] + body; }
      Split(header + ['\n'] + body, '\n');
      { SplitCons(header, body, '\n'); }
      [header] + Split(body, '\n');
      { SplitTerminated(rows, "\n", '\n'); }
      [header] + (rows + Split("\n", '\n'));
      { SplitNewline(); }
      [header] + rows + ["", ""];
    }
  }

  lemma RowTextsClean(es: seq<Entry>)
    requires forall k :: 0 <= k < |es| ==> '\n' !in es[k].name && '\n' !in es[k].time
    ensures forall k :: 0 <= k < |RowTexts(es)| ==> '\n' !in RowTexts(es)[k]
  {
    forall k | 0 <= k < |es|
      ensures '\n' !in RowTexts(es)[k]
    {
      var e := es[k];
      assert RowTexts(es)[k] == "," + e.name + "," + e.time;
    }
  }

  lemma SplitNewline()
    ensures Split("\n", '\n') == ["", ""]
  {
    assert "\n" == "" + ['\n'] + "";
    SplitCons("", "", '\n');
  }
}
