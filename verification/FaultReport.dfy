/** Fault reports: rendering to markdown and parsing the markdown back. */
module FaultReport {
  import opened Text

  datatype Section = Section(title: string, content: string)

  /** The part of a report that the markdown carries. */
  datatype Report = Report(id: string, severity: string, summary: string, sections: seq<Section>)

  const ID_MARKER: string := "> 报告ID:"
  const SEVERITY_MARKER: string := "严重级别:"
  const SUMMARY_MARKER: string := "> 摘要:"
  const HEADING: string := "# 故障分析报告"

  // ---------- Rendering ----------

  function RenderSection(s: Section): string {
    "## " + s.title + "\n" + "\n" + s.content + "\n" + "\n"
  }

  function RenderSections(sections: seq<Section>): string {
    if sections == [] then ""
    else RenderSections(sections[..|sections| - 1]) + RenderSection(sections[|sections| - 1])
  }

  function IdLine(r: Report): string {
    ID_MARKER + " " + r.id + " | " + SEVERITY_MARKER + " " + r.severity
  }

  function SummaryLine(r: Report): string {
    SUMMARY_MARKER + " " + r.summary
  }

  function Render(r: Report): string {
    HEADING + "\n" + "\n" + IdLine(r) + "\n" + SummaryLine(r) + "\n" + "\n" + RenderSections(r.sections)
  }

  method RenderMarkdown(r: Report) returns (out: string)
    ensures out == Render(r)
  {
    hide RenderSection;
    out := HEADING + "\n" + "\n" + IdLine(r) + "\n" + SummaryLine(r) + "\n" + "\n";
    ghost var head := out;
    ConcatNil(head);
    for i := 0 to |r.sections|
      invariant out == head + RenderSections(r.sections[..i])
    {
      PrefixStep(r.sections, i);
      ConcatAssoc(head, RenderSections(r.sections[..i]), RenderSection(r.sections[i]));
      out := out + RenderSection(r.sections[i]);
    }
    WholePrefix(r.sections);
  }

  // ---------- Parsing ----------

  function TrimPrefix(s: string, p: string): string {
    if p <= s then s[|p|..] else s
  }

  datatype Meta = Meta(id: string, severity: string, summary: string)

  predicate IsIdLine(trimmed: string) {
    ID_MARKER <= trimmed
  }

  predicate IsSummaryLine(trimmed: string) {
    SUMMARY_MARKER <= trimmed
  }

  function ReadId(m: Meta, trimmed: string): Meta {
    var parts := Split(trimmed, '|');
    var m1 := m.(id := Trim(TrimPrefix(parts[0], ID_MARKER)));
    if |parts| >= 2 then m1.(severity := Trim(TrimPrefix(Trim(parts[1]), SEVERITY_MARKER))) else m1
  }

  function ReadMeta(m: Meta, line: string): Meta {
    var trimmed := Trim(line);
    var m1 := if IsIdLine(trimmed) then ReadId(m, trimmed) else m;
    if IsSummaryLine(trimmed) then m1.(summary := Trim(TrimPrefix(trimmed, SUMMARY_MARKER))) else m1
  }

  function ReadAllMeta(m: Meta, lines: seq<string>): Meta {
    if lines == [] then m else ReadMeta(ReadAllMeta(m, lines[..|lines| - 1]), lines[|lines| - 1])
  }

  /** The sections read so far; `title` is empty before the first heading, `body` is the text since. */
  datatype Reader = Reader(sections: seq<Section>, title: string, body: string)

  const NO_SECTION := Reader([], "", "")

  function Flush(s: Reader): seq<Section> {
    if s.title != "" then s.sections + [Section(s.title, Trim(s.body))] else s.sections
  }

  predicate IsHeading(line: string) {
    "## " <= line
  }

  function ReadLine(s: Reader, line: string): Reader {
    if IsHeading(line) then Reader(Flush(s), Trim(TrimPrefix(line, "## ")), "")
    else if s.title != "" then s.(body := s.body + line + "\n")
    else s
  }

  function ReadAll(s: Reader, lines: seq<string>): Reader {
    if lines == [] then s else ReadLine(ReadAll(s, lines[..|lines| - 1]), lines[|lines| - 1])
  }

  function Parse(text: string): Report {
    var lines := Split(text, '\n');
    var m := ReadAllMeta(Meta("", "", ""), lines);
    Report(m.id, m.severity, m.summary, Flush(ReadAll(NO_SECTION, lines)))
  }

  method ParseMarkdownReport(text: string) returns (r: Report)
    ensures r == Parse(text)
  {
    hide ReadMeta, Split, Flush, ReadAll;
    var lines := Split(text, '\n');
    var m := Meta("", "", "");
    for i := 0 to |lines|
      invariant m == ReadAllMeta(Meta("", "", ""), lines[..i])
    {
      PrefixStep(lines, i);
      m := ReadMeta(m, lines[i]);
    }
    WholePrefix(lines);
    var sections := SplitMarkdownSections(lines);
    r := Report(m.id, m.severity, m.summary, sections);
  }

  method SplitMarkdownSections(lines: seq<string>) returns (sections: seq<Section>)
    ensures sections == Flush(ReadAll(NO_SECTION, lines))
  {
    hide Trim;
    var title, body := "", "";
    sections := [];
    for i := 0 to |lines|
      invariant ReadAll(NO_SECTION, lines[..i]) == Reader(sections, title, body)
    {
      PrefixStep(lines, i);
      if "## " <= lines[i] {
        if title != "" {
          sections := sections + [Section(title, Trim(body))];
        }
        title := Trim(TrimPrefix(lines[i], "## "));
        body := "";
      } else if title != "" {
        body := body + lines[i] + "\n";
      }
    }
    WholePrefix(lines);
    if title != "" {
      sections := sections + [Section(title, Trim(body))];
    }
  }

  // ---------- The lines of a rendered report ----------

  function SectionLines(s: Section): seq<string> {
    ["## " + s.title, ""] + Split(s.content, '\n') + [""]
  }

  function AllSectionLines(sections: seq<Section>): seq<string> {
    if sections == [] then []
    else AllSectionLines(sections[..|sections| - 1]) + SectionLines(sections[|sections| - 1])
  }

  predicate OneLine(s: string) {
    '\n' !in s
  }

  predicate WellFormed(r: Report) {
    && OneLine(r.id) && OneLine(r.severity) && OneLine(r.summary)
    && '|' !in r.id && '|' !in r.severity
    && forall i :: 0 <= i < |r.sections| ==> WellFormedSection(r.sections[i])
  }

  /** A title that is not blank, and a content none of whose lines looks like a heading or like metadata. */
  predicate WellFormedSection(s: Section) {
    && OneLine(s.title) && Trim(s.title) != ""
    && forall i :: 0 <= i < |Split(s.content, '\n')| ==>
         !("## " <= Split(s.content, '\n')[i]) && Plain(Split(s.content, '\n')[i])
  }

  predicate Plain(line: string) {
    !("> 报告ID:" <= Trim(line)) && !("> 摘要:" <= Trim(line))
  }

  lemma SplitLine(line: string, rest: string)
    requires OneLine(line)
    ensures Split(line + "\n" + rest, '\n') == [line] + Split(rest, '\n')
  {
    SplitPlain(line, '\n');
    SplitConcat(line, '\n', rest);
  }

  lemma SplitSection(s: Section, rest: string)
    requires OneLine(s.title)
    ensures Split(RenderSection(s) + rest, '\n') == SectionLines(s) + Split(rest, '\n')
  {
    hide Split;
    var blank := "\n" + rest;
    assert RenderSection(s) + rest == ("## " + s.title) + "\n" + ("" + "\n" + (s.content + "\n" + ("" + "\n" + rest)));
    SplitLine("## " + s.title, "" + "\n" + (s.content + "\n" + ("" + "\n" + rest)));
    SplitLine("", s.content + "\n" + ("" + "\n" + rest));
    SplitConcat(s.content, '\n', "" + "\n" + rest);
    assert s.content + "\n" + ("" + "\n" + rest) == s.content + ['\n'] + ("" + "\n" + rest);
    SplitLine("", rest);
    FourParts("## " + s.title, Split(s.content, '\n'), Split(rest, '\n'));
  }

  lemma FourParts(title: string, content: seq<string>, rest: seq<string>)
    ensures [title] + ([""] + (content + ([""] + rest))) == ([title, ""] + content + [""]) + rest
  {
  }

  lemma {:induction false} SplitSections(sections: seq<Section>, rest: string)
    requires forall i :: 0 <= i < |sections| ==> OneLine(sections[i].title)
    ensures Split(RenderSections(sections) + rest, '\n') == AllSectionLines(sections) + Split(rest, '\n')
  {
    hide Split, RenderSection, SectionLines;
    if sections == [] {
      ConcatNil(rest);
      ConcatNil(Split(rest, '\n'));
    } else {
      var front, s := sections[..|sections| - 1], sections[|sections| - 1];
      ConcatAssoc(RenderSections(front), RenderSection(s), rest);
      SplitSections(front, RenderSection(s) + rest);
      SplitSection(s, rest);
      ConcatAssoc(AllSectionLines(front), SectionLines(s), Split(rest, '\n'));
    }
  }

  function HeadLines(r: Report): seq<string> {
    [HEADING, "", IdLine(r), SummaryLine(r), ""]
  }

  lemma RenderedLines(r: Report)
    requires WellFormed(r)
    ensures Split(Render(r), '\n') == HeadLines(r) + AllSectionLines(r.sections) + [""]
  {
    var body := RenderSections(r.sections);
    SplitSections(r.sections, "");
    ConcatNil(body);
    SplitPlain("", '\n');
    HeadIsOneLineEach(r);
    hide Split, IdLine, SummaryLine;
    var t1 := "" + "\n" + body;
    var t2 := SummaryLine(r) + "\n" + t1;
    var t3 := IdLine(r) + "\n" + t2;
    var t4 := "" + "\n" + t3;
    Associate(r, body);
    SplitLine("", body);
    SplitLine(SummaryLine(r), t1);
    SplitLine(IdLine(r), t2);
    SplitLine("", t3);
    SplitLine(HEADING, t4);
    FiveParts(HEADING, IdLine(r), SummaryLine(r), Split(body, '\n'));
    ConcatAssoc(HeadLines(r), AllSectionLines(r.sections), [""]);
  }

  lemma Associate(r: Report, body: string)
    requires body == RenderSections(r.sections)
    ensures Render(r)
         == HEADING + "\n" + ("" + "\n" + (IdLine(r) + "\n" + (SummaryLine(r) + "\n" + ("" + "\n" + body))))
  {
    hide IdLine, SummaryLine, RenderSections;
  }

  lemma FiveParts(a: string, b: string, c: string, rest: seq<string>)
    ensures [a] + ([""] + ([b] + ([c] + ([""] + rest)))) == [a, "", b, c, ""] + rest
  {
  }

  lemma HeadIsOneLineEach(r: Report)
    requires WellFormed(r)
    ensures OneLine(HEADING) && OneLine(IdLine(r)) && OneLine(SummaryLine(r))
  {
  }

  // ---------- Reading the sections back ----------

  lemma {:induction false} ReadAllConcat(s: Reader, a: seq<string>, b: seq<string>)
    ensures ReadAll(s, a + b) == ReadAll(ReadAll(s, a), b)
  {
    hide ReadLine;
    if b == [] {
      ConcatNil(a);
    } else {
      ReadAllConcat(s, a, b[..|b| - 1]);
      ConcatAssoc(a, b[..|b| - 1], [b[|b| - 1]]);
      InitLast(b);
      SnocInit(a + b[..|b| - 1], b[|b| - 1]);
    }
  }

  function Unlines(lines: seq<string>): string {
    if lines == [] then "" else Unlines(lines[..|lines| - 1]) + lines[|lines| - 1] + "\n"
  }

  /** Lines that are no headings are collected. */
  lemma {:induction false} ReadBody(s: Reader, lines: seq<string>)
    requires s.title != "" && forall i :: 0 <= i < |lines| ==> !IsHeading(lines[i])
    ensures ReadAll(s, lines) == s.(body := s.body + Unlines(lines))
  {
    if lines == [] {
      ConcatNil(s.body);
    } else {
      ReadBody(s, lines[..|lines| - 1]);
      ConcatAssoc(s.body, Unlines(lines[..|lines| - 1]), lines[|lines| - 1]);
      ConcatAssoc(s.body, Unlines(lines[..|lines| - 1]) + lines[|lines| - 1], "\n");
    }
  }

  /** Lines before the first heading are skipped. */
  lemma {:induction false} ReadNothing(lines: seq<string>)
    requires forall i :: 0 <= i < |lines| ==> !IsHeading(lines[i])
    ensures ReadAll(NO_SECTION, lines) == NO_SECTION
  {
    if lines != [] {
      ReadNothing(lines[..|lines| - 1]);
    }
  }

  lemma {:induction false} UnlinesJoin(lines: seq<string>)
    requires lines != []
    ensures Unlines(lines) == Join(lines, '\n') + "\n"
  {
    var n := |lines| - 1;
    if n == 0 {
      assert lines[..0] == [];
      ConcatNil(lines[0]);
    } else {
      UnlinesJoin(lines[..n]);
      JoinConcat(lines[..n], [lines[n]], '\n');
      InitLast(lines);
    }
  }

  /** The body of a section is its content between blank lines. */
  lemma BodyText(content: string)
    ensures Unlines([""] + Split(content, '\n') + [""]) == "\n" + content + "\n\n"
  {
    hide Split;
    var lines := Split(content, '\n');
    UnlinesJoin([""] + lines + [""]);
    JoinSplit(content, '\n');
    JoinConcat([""], lines, '\n');
    JoinConcat([""] + lines, [""], '\n');
  }

  /** What a report's section is read back as. */
  function Normal(s: Section): Section {
    Section(Trim(s.title), Trim(s.content))
  }

  function NormalAll(sections: seq<Section>): seq<Section> {
    if sections == [] then []
    else NormalAll(sections[..|sections| - 1]) + [Normal(sections[|sections| - 1])]
  }

  /** A section's lines flush the section before and leave the reader at the section's end. */
  lemma ReadSection(before: Reader, s: Section)
    requires WellFormedSection(s)
    ensures ReadAll(before, SectionLines(s)) == Reader(Flush(before), Trim(s.title), "\n" + s.content + "\n\n")
  {
    hide Trim, Split, Flush;
    var title: seq<string> := ["## " + s.title];
    var rest := [""] + Split(s.content, '\n') + [""];
    assert SectionLines(s) == title + rest;
    ReadAllConcat(before, title, rest);
    assert title[..0] == [] && TrimPrefix("## " + s.title, "## ") == s.title;
    assert ReadAll(before, title) == Reader(Flush(before), Trim(s.title), "");
    BodyText(s.content);
    ReadBody(Reader(Flush(before), Trim(s.title), ""), rest);
    ConcatNil("\n" + s.content + "\n\n");
  }

  lemma FlushSection(sections: seq<Section>, s: Section)
    requires Trim(s.title) != ""
    ensures Flush(Reader(sections, Trim(s.title), "\n" + s.content + "\n\n")) == sections + [Normal(s)]
  {
    TrimSurrounded("\n", s.content, "\n\n");
  }

  lemma {:induction false} ReadSections(sections: seq<Section>)
    requires forall i :: 0 <= i < |sections| ==> WellFormedSection(sections[i])
    ensures Flush(ReadAll(NO_SECTION, AllSectionLines(sections))) == NormalAll(sections)
    ensures sections != [] ==>
              var s := sections[|sections| - 1];
              ReadAll(NO_SECTION, AllSectionLines(sections))
              == Reader(NormalAll(sections[..|sections| - 1]), Trim(s.title), "\n" + s.content + "\n\n")
  {
    hide Trim, SectionLines, WellFormedSection;
    if sections != [] {
      var front, s := sections[..|sections| - 1], sections[|sections| - 1];
      ReadSections(front);
      ReadAllConcat(NO_SECTION, AllSectionLines(front), SectionLines(s));
      ReadSection(ReadAll(NO_SECTION, AllSectionLines(front)), s);
      TitleIsNotBlank(s);
      FlushSection(NormalAll(front), s);
    }
  }

  lemma TitleIsNotBlank(s: Section)
    requires WellFormedSection(s)
    ensures Trim(s.title) != ""
  {
  }

  /** The blank line at the very end belongs to the last section and is trimmed away. */
  lemma ReadEnd(sections: seq<Section>)
    requires forall i :: 0 <= i < |sections| ==> WellFormedSection(sections[i])
    ensures Flush(ReadAll(NO_SECTION, AllSectionLines(sections) + [""])) == NormalAll(sections)
  {
    hide Trim, WellFormedSection;
    ReadSections(sections);
    ReadAllConcat(NO_SECTION, AllSectionLines(sections), [""]);
    assert [""][..0] == [];
    if sections != [] {
      var s := sections[|sections| - 1];
      TitleIsNotBlank(s);
      LastBody(s);
    }
  }

  lemma LastBody(s: Section)
    ensures Trim("\n" + s.content + "\n\n" + "" + "\n") == Trim(s.content)
  {
    assert "\n" + s.content + "\n\n" + "" + "\n" == "\n" + s.content + "\n\n\n";
    TrimSurrounded("\n", s.content, "\n\n\n");
  }

  lemma SectionsAreRead(r: Report)
    requires WellFormed(r)
    ensures Flush(ReadAll(NO_SECTION, Split(Render(r), '\n'))) == NormalAll(r.sections)
  {
    hide Split, Render, AllSectionLines, Flush;
    RenderedLines(r);
    var head, body := HeadLines(r), AllSectionLines(r.sections);
    ConcatAssoc(head, body, [""]);
    HeadHasNoHeading(r);
    ReadNothing(head);
    ReadAllConcat(NO_SECTION, head, body + [""]);
    ReadEnd(r.sections);
  }

  lemma HeadHasNoHeading(r: Report)
    ensures forall i :: 0 <= i < |HeadLines(r)| ==> !IsHeading(HeadLines(r)[i])
  {
    assert HEADING[1] == ' ' && "## "[1] == '#';
    assert IdLine(r)[0] == '>' && SummaryLine(r)[0] == '>';
  }

  // ---------- Reading the metadata back ----------

  /** Trimming the right end does not touch a prefix that ends in a visible character. */
  lemma {:induction false} TrimRightKeeps(p: string, x: string)
    requires p != "" && !IsSpace(p[|p| - 1])
    ensures TrimRight(p + x) == p + TrimRight(x)
  {
    if x == "" {
      ConcatNil(p);
    } else {
      assert (p + x)[..|p + x| - 1] == p + x[..|x| - 1];
      if IsSpace(x[|x| - 1]) {
        TrimRightKeeps(p, x[..|x| - 1]);
      }
    }
  }

  /** Trimming "marker text" keeps the marker and trims the text. */
  lemma TrimMarked(p: string, x: string)
    requires p != "" && Trimmed(p)
    ensures Trim(p + x) == p + TrimRight(x)
  {
    assert (p + x)[0] == p[0];
    TrimRightKeeps(p, x);
  }

  lemma TrimOfTrimRight(x: string)
    ensures Trim(TrimRight(x)) == Trim(x)
  {
    var r := TrimRight(x);
    TrimRightIs(x);
    var tail := x[|r|..];
    assert x == "" + r + tail;
    TrimSurrounded("", r, tail);
  }

  lemma TrimSpaced(x: string)
    ensures Trim(" " + x) == Trim(x) && Trim(" " + x + " ") == Trim(x)
  {
    TrimSurrounded(" ", x, "");
    ConcatNil(" " + x);
    TrimSurrounded(" ", x, " ");
  }

  lemma AfterPrefix(p: string, x: string)
    ensures p <= p + x && TrimPrefix(p + x, p) == x
  {
  }

  lemma MarkersAreTrimmed()
    ensures ID_MARKER != "" && SEVERITY_MARKER != "" && SUMMARY_MARKER != ""
    ensures Trimmed(ID_MARKER) && Trimmed(SEVERITY_MARKER) && Trimmed(SUMMARY_MARKER)
    ensures '|' !in ID_MARKER && '|' !in SEVERITY_MARKER
  {
  }

  lemma MarkersDiffer(x: string)
    ensures !(SUMMARY_MARKER <= ID_MARKER + x) && !(ID_MARKER <= SUMMARY_MARKER + x)
  {
    assert (ID_MARKER + x)[2] == ID_MARKER[2] && (SUMMARY_MARKER + x)[2] == SUMMARY_MARKER[2];
  }

  lemma WithoutBar(sev: string)
    requires '|' !in sev
    ensures '|' !in TrimRight(" " + sev)
  {
    assert TrimRight(" " + sev) <= " " + sev;
  }

  lemma FrontIsTrimmed(p: string, id: string, q: string)
    requires p != "" && Trimmed(p) && q != "" && Trimmed(q)
    ensures var front := p + " " + id + " | " + q; front != "" && Trimmed(front)
  {
    var front := p + " " + id + " | " + q;
    assert front[0] == p[0] && front[|front| - 1] == q[|q| - 1];
  }

  lemma Regroup(p: string, id: string, q: string, y: string)
    ensures p + " " + id + " | " + q + y == p + (" " + id + " | " + q + y)
    ensures p + " " + id + " | " + q + y == (p + (" " + id + " ")) + ['|'] + (" " + (q + y))
  {
  }

  /** A line of two marked texts, trimmed and split at the bar. */
  lemma TwoMarkedTexts(p: string, id: string, q: string, sev: string)
    requires p != "" && Trimmed(p) && q != "" && Trimmed(q)
    requires '|' !in p && '|' !in q && '|' !in id && '|' !in sev
    ensures var y := TrimRight(" " + sev);
            var line := p + " " + id + " | " + q + " " + sev;
            && Trim(line) == p + (" " + id + " | " + q + y)
            && Split(Trim(line), '|') == [p + (" " + id + " "), " " + (q + y)]
  {
    hide Trim, TrimRight, Split;
    var y := TrimRight(" " + sev);
    var front := p + " " + id + " | " + q;
    ConcatAssoc(front, " ", sev);
    FrontIsTrimmed(p, id, q);
    TrimMarked(front, " " + sev);
    WithoutBar(sev);
    var left, right := p + (" " + id + " "), " " + (q + y);
    Regroup(p, id, q, y);
    SplitConcat(left, '|', right);
    SplitPlain(left, '|');
    SplitPlain(right, '|');
  }

  /** What the parts of the ID line are read as. */
  lemma ReadIdParts(m: Meta, trimmed: string, a: string, b: string)
    requires Split(trimmed, '|') == [ID_MARKER + a, " " + (SEVERITY_MARKER + b)]
    ensures ReadId(m, trimmed) == m.(id := Trim(a), severity := Trim(b))
  {
    MarkersAreTrimmed();
    TrimMarked(SEVERITY_MARKER, b);
    TrimOfTrimRight(b);
    TrimSpaced(SEVERITY_MARKER + b);
    hide Trim, TrimRight, Split;
    AfterPrefix(ID_MARKER, a);
    AfterPrefix(SEVERITY_MARKER, TrimRight(b));
  }

  /** The line with the report ID gives back ID and severity. */
  lemma ReadIdLine(m: Meta, r: Report)
    requires '|' !in r.id && '|' !in r.severity
    ensures ReadMeta(m, IdLine(r)) == m.(id := Trim(r.id), severity := Trim(r.severity))
  {
    hide Trim, TrimRight, Split, Trimmed, ReadId;
    MarkersAreTrimmed();
    var y := TrimRight(" " + r.severity);
    TwoMarkedTexts(ID_MARKER, r.id, SEVERITY_MARKER, r.severity);
    ReadIdParts(m, Trim(IdLine(r)), " " + r.id + " ", y);
    AfterPrefix(ID_MARKER, " " + r.id + " | " + SEVERITY_MARKER + y);
    MarkersDiffer(" " + r.id + " | " + SEVERITY_MARKER + y);
    TrimSpaced(r.id);
    TrimSpaced(r.severity);
    TrimOfTrimRight(" " + r.severity);
  }

  lemma ReadSummaryLine(m: Meta, r: Report)
    ensures ReadMeta(m, SummaryLine(r)) == m.(summary := Trim(r.summary))
  {
    hide Trim, TrimRight, Split, Trimmed, ReadId;
    var y := TrimRight(" " + r.summary);
    MarkersAreTrimmed();
    ConcatAssoc(SUMMARY_MARKER, " ", r.summary);
    TrimMarked(SUMMARY_MARKER, " " + r.summary);
    AfterPrefix(SUMMARY_MARKER, y);
    MarkersDiffer(y);
    TrimOfTrimRight(" " + r.summary);
    TrimSpaced(r.summary);
  }

  lemma {:induction false} ReadMetaConcat(m: Meta, a: seq<string>, b: seq<string>)
    ensures ReadAllMeta(m, a + b) == ReadAllMeta(ReadAllMeta(m, a), b)
  {
    hide ReadMeta;
    if b == [] {
      ConcatNil(a);
    } else {
      ReadMetaConcat(m, a, b[..|b| - 1]);
      ConcatAssoc(a, b[..|b| - 1], [b[|b| - 1]]);
      InitLast(b);
      SnocInit(a + b[..|b| - 1], b[|b| - 1]);
    }
  }

  lemma {:induction false} PlainLinesKeepMeta(m: Meta, lines: seq<string>)
    requires forall i :: 0 <= i < |lines| ==> Plain(lines[i])
    ensures ReadAllMeta(m, lines) == m
  {
    hide Trim;
    if lines != [] {
      PlainLinesKeepMeta(m, lines[..|lines| - 1]);
      assert Plain(lines[|lines| - 1]);
    }
  }

  /** A line that starts with '#' is not metadata. */
  lemma HashIsPlain(line: string)
    requires line != "" && line[0] == '#'
    ensures Plain(line)
  {
    var x := line[1..];
    assert line == "#" + x;
    TrimMarked("#", x);
    assert Trim(line)[0] == '#' && ID_MARKER[0] == '>' && SUMMARY_MARKER[0] == '>';
  }

  lemma BlankIsPlain()
    ensures Plain("")
  {
  }

  lemma {:induction false} SectionLinesArePlain(sections: seq<Section>)
    requires forall i :: 0 <= i < |sections| ==> WellFormedSection(sections[i])
    ensures forall i :: 0 <= i < |AllSectionLines(sections)| ==> Plain(AllSectionLines(sections)[i])
  {
    hide Plain, Split, SectionLines, WellFormedSection;
    if sections != [] {
      SectionLinesArePlain(sections[..|sections| - 1]);
      SectionIsPlain(sections[|sections| - 1]);
    }
  }

  lemma SectionIsPlain(s: Section)
    requires WellFormedSection(s)
    ensures forall i :: 0 <= i < |SectionLines(s)| ==> Plain(SectionLines(s)[i])
  {
    hide Plain, Split, Trim;
    HashIsPlain("## " + s.title);
    BlankIsPlain();
  }

  lemma ReadHead(m: Meta, r: Report)
    requires '|' !in r.id && '|' !in r.severity
    ensures ReadAllMeta(m, HeadLines(r)) == Meta(Trim(r.id), Trim(r.severity), Trim(r.summary))
  {
    hide ReadMeta, IdLine, SummaryLine, Trim, Plain;
    var a: seq<string>, b: seq<string>, c: seq<string> := [HEADING, ""], [IdLine(r)], [SummaryLine(r)];
    assert HeadLines(r) == a + b + c + [""];
    HashIsPlain(HEADING);
    BlankIsPlain();
    PlainLinesKeepMeta(m, a);
    ReadMetaConcat(m, a, b);
    ReadMetaConcat(m, a + b, c);
    ReadMetaConcat(m, a + b + c, [""]);
    assert b[..0] == [] && c[..0] == [];
    ReadIdLine(m, r);
    ReadSummaryLine(ReadMeta(m, IdLine(r)), r);
    PlainLinesKeepMeta(Meta(Trim(r.id), Trim(r.severity), Trim(r.summary)), [""]);
  }

  lemma MetaIsRead(r: Report)
    requires WellFormed(r)
    ensures ReadAllMeta(Meta("", "", ""), Split(Render(r), '\n'))
         == Meta(Trim(r.id), Trim(r.severity), Trim(r.summary))
  {
    hide Split, Render, AllSectionLines, HeadLines, Plain, Trim;
    var m, body := Meta("", "", ""), AllSectionLines(r.sections);
    RenderedLines(r);
    ReadMetaConcat(m, HeadLines(r) + body, [""]);
    ReadMetaConcat(m, HeadLines(r), body);
    ReadHead(m, r);
    SectionLinesArePlain(r.sections);
    BlankIsPlain();
    PlainLinesKeepMeta(Meta(Trim(r.id), Trim(r.severity), Trim(r.summary)), body);
    PlainLinesKeepMeta(Meta(Trim(r.id), Trim(r.severity), Trim(r.summary)), [""]);
  }

  // ---------- Round trip ----------

  /** Parsing a rendered report gives back its ID, severity, summary and sections, in order, with blanks
      trimmed at the ends of each. */
  lemma RoundTrip(r: Report)
    requires WellFormed(r)
    ensures Parse(Render(r))
         == Report(Trim(r.id), Trim(r.severity), Trim(r.summary), NormalAll(r.sections))
  {
    hide Split, Render, WellFormed, Trim, NormalAll, Flush;
    MetaIsRead(r);
    SectionsAreRead(r);
  }

  predicate AlreadyTrimmed(r: Report) {
    && Trimmed(r.id) && Trimmed(r.severity) && Trimmed(r.summary)
    && forall i :: 0 <= i < |r.sections| ==> Trimmed(r.sections[i].title) && Trimmed(r.sections[i].content)
  }

  lemma {:induction false} NormalIsIdentity(sections: seq<Section>)
    requires forall i :: 0 <= i < |sections| ==> Trimmed(sections[i].title) && Trimmed(sections[i].content)
    ensures NormalAll(sections) == sections
  {
    hide Trim, Trimmed;
    if sections != [] {
      var s := sections[|sections| - 1];
      NormalIsIdentity(sections[..|sections| - 1]);
      TrimTrimmed(s.title);
      TrimTrimmed(s.content);
      InitLast(sections);
    }
  }

  /** On trimmed reports the round trip is the identity. */
  lemma ExactRoundTrip(r: Report)
    requires WellFormed(r) && AlreadyTrimmed(r)
    ensures Parse(Render(r)) == r
  {
    RoundTrip(r);
    hide Parse, Render, Trim, WellFormed, Trimmed, NormalAll;
    NormalIsIdentity(r.sections);
    TrimTrimmed(r.id);
    TrimTrimmed(r.severity);
    TrimTrimmed(r.summary);
  }

  /** The lines at the beginning of a rendered report. */
  lemma ReportBegins(r: Report)
    requires WellFormed(r)
    ensures var lines := Split(Render(r), '\n');
            && |lines| >= 5 && lines[0] == "# 故障分析报告" && lines[1] == "" && lines[4] == ""
            && lines[2] == "> 报告ID:" + " " + r.id + " | " + "严重级别:" + " " + r.severity
            && lines[3] == "> 摘要:" + " " + r.summary
  {
    hide Split, AllSectionLines, Render;
    RenderedLines(r);
  }
}
