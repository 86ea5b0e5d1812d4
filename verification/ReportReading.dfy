/** What is read from a report's text, whatever text it is: the sections between its headings, and the last of the lines
    that carry ID, severity and summary. */
module ReportReading {
  import opened Text
  import opened FaultReport

  // ---------- Sections ----------

  /** A heading and the lines up to the next one. */
  datatype Chunk = Chunk(title: string, body: seq<string>)

  predicate NoHeading(lines: seq<string>) {
    forall i :: 0 <= i < |lines| ==> !("## " <= lines[i])
  }

  predicate NoHeadingInside(chunks: seq<Chunk>) {
    forall i :: 0 <= i < |chunks| ==> NoHeading(chunks[i].body)
  }

  function ChunkLines(chunks: seq<Chunk>): seq<string> {
    if chunks == [] then []
    else
      var c := chunks[|chunks| - 1];
      ChunkLines(chunks[..|chunks| - 1]) + (["## " + c.title] + c.body)
  }

  /** A section for every chunk whose title is not blank. */
  function Titled(chunks: seq<Chunk>): seq<Section> {
    if chunks == [] then []
    else
      var c := chunks[|chunks| - 1];
      Titled(chunks[..|chunks| - 1])
      + (if Trim(c.title) == "" then [] else [Section(Trim(c.title), Trim(Join(c.body, '\n')))])
  }

  /** Every list of lines has chunks. */
  lemma {:induction false} Chunked(lines: seq<string>) returns (pre: seq<string>, chunks: seq<Chunk>)
    ensures lines == pre + ChunkLines(chunks) && NoHeading(pre) && NoHeadingInside(chunks)
  {
    if lines == [] {
      pre, chunks := [], [];
    } else {
      var line := lines[|lines| - 1];
      InitLast(lines);
      pre, chunks := Chunked(lines[..|lines| - 1]);
      if "## " <= line {
        assert line == "## " + line[3..];
        SnocInit(chunks, Chunk(line[3..], []));
        ConcatAssoc(pre, ChunkLines(chunks), [line]);
        chunks := chunks + [Chunk(line[3..], [])];
      } else if chunks == [] {
        pre := pre + [line];
      } else {
        var front, last := chunks[..|chunks| - 1], chunks[|chunks| - 1];
        SnocInit(front, Chunk(last.title, last.body + [line]));
        Extended(pre, ChunkLines(front), "## " + last.title, last.body, line);
        chunks := front + [Chunk(last.title, last.body + [line])];
      }
    }
  }

  lemma Extended(pre: seq<string>, front: seq<string>, title: string, body: seq<string>, line: string)
    ensures pre + (front + ([title] + body)) + [line] == pre + (front + ([title] + (body + [line])))
  {
  }

  lemma BodyIsTrimmed(body: seq<string>)
    ensures Trim(Unlines(body)) == Trim(Join(body, '\n'))
  {
    hide Trim;
    if body != [] {
      UnlinesJoin(body);
      TrimSurrounded("", Join(body, '\n'), "\n");
      ConcatNil(Join(body, '\n'));
    }
  }

  lemma ReadChunk(s: Reader, c: Chunk)
    requires NoHeading(c.body)
    ensures Flush(ReadAll(s, ["## " + c.title] + c.body))
         == Flush(s) + (if Trim(c.title) == "" then [] else [Section(Trim(c.title), Trim(Join(c.body, '\n')))])
  {
    hide Trim;
    var title: seq<string> := ["## " + c.title];
    ReadAllConcat(s, title, c.body);
    assert title[..0] == [] && TrimPrefix("## " + c.title, "## ") == c.title;
    var next := Reader(Flush(s), Trim(c.title), "");
    assert ReadAll(s, title) == next;
    BodyIsTrimmed(c.body);
    ConcatNil(Unlines(c.body));
    if next.title == "" {
      ReadUntitled(next, c.body);
    } else {
      ReadBody(next, c.body);
    }
  }

  lemma {:induction false} ReadUntitled(s: Reader, lines: seq<string>)
    requires s.title == "" && NoHeading(lines)
    ensures ReadAll(s, lines) == s
  {
    if lines != [] {
      ReadUntitled(s, lines[..|lines| - 1]);
    }
  }

  lemma {:induction false} ReadChunks(chunks: seq<Chunk>)
    requires NoHeadingInside(chunks)
    ensures Flush(ReadAll(NO_SECTION, ChunkLines(chunks))) == Titled(chunks)
  {
    hide Trim, Flush;
    if chunks == [] {
      NothingRead();
    } else {
      var front, c := chunks[..|chunks| - 1], chunks[|chunks| - 1];
      ReadChunks(front);
      ReadAllConcat(NO_SECTION, ChunkLines(front), ["## " + c.title] + c.body);
      ReadChunk(ReadAll(NO_SECTION, ChunkLines(front)), c);
    }
  }

  lemma NothingRead()
    ensures Flush(NO_SECTION) == []
  {
  }

  /** The sections of any text: one for each heading that is not blank, with the lines up to the next heading, trimmed;
      what stands before the first heading is in none. */
  lemma SectionsAre(text: string) returns (pre: seq<string>, chunks: seq<Chunk>)
    ensures Split(text, '\n') == pre + ChunkLines(chunks) && NoHeading(pre) && NoHeadingInside(chunks)
    ensures Parse(text).sections == Titled(chunks)
  {
    hide Split, Flush, Titled;
    pre, chunks := Chunked(Split(text, '\n'));
    ReadUntitled(NO_SECTION, pre);
    ReadAllConcat(NO_SECTION, pre, ChunkLines(chunks));
    ReadChunks(chunks);
  }

  // ---------- Metadata ----------

  predicate NamesId(line: string) {
    "> 报告ID:" <= Trim(line)
  }

  predicate NamesSummary(line: string) {
    "> 摘要:" <= Trim(line)
  }

  lemma Reads(m: Meta, line: string)
    ensures var r := ReadMeta(m, line);
            && (!NamesId(line) ==> r.id == m.id && r.severity == m.severity)
            && (!NamesSummary(line) ==> r.summary == m.summary)
            && ('|' !in Trim(line) ==> r.severity == m.severity)
  {
    hide Trim;
    if '|' !in Trim(line) {
      SplitPlain(Trim(line), '|');
    }
  }

  lemma {:induction false} LaterKeep(m: Meta, lines: seq<string>)
    ensures var r := ReadAllMeta(m, lines);
            && ((forall i :: 0 <= i < |lines| ==> !NamesId(lines[i])) ==> r.id == m.id)
            && ((forall i :: 0 <= i < |lines| ==> !NamesSummary(lines[i])) ==> r.summary == m.summary)
            && ((forall i :: 0 <= i < |lines| && NamesId(lines[i]) ==> '|' !in Trim(lines[i])) ==>
                  r.severity == m.severity)
  {
    hide ReadMeta, NamesId, NamesSummary, Trim;
    if lines != [] {
      var front, line := lines[..|lines| - 1], lines[|lines| - 1];
      LaterKeep(m, front);
      Reads(ReadAllMeta(m, front), line);
    }
  }

  lemma ReadFrom(a: seq<string>, line: string, b: seq<string>)
    ensures ReadAllMeta(Meta("", "", ""), a + [line] + b)
         == ReadAllMeta(ReadMeta(ReadAllMeta(Meta("", "", ""), a), line), b)
  {
    hide ReadMeta;
    ReadMetaConcat(Meta("", "", ""), a + [line], b);
    SnocInit(a, line);
  }

  lemma IdPart(x: string)
    ensures var parts := Split("> 报告ID:" + x, '|');
            && parts[0] == "> 报告ID:" + Split(x, '|')[0] && |parts| == |Split(x, '|')|
            && (|parts| >= 2 ==> parts[1] == Split(x, '|')[1])
  {
    hide Split;
    var parts := Split(x, '|');
    JoinSplit(x, '|');
    var first := "> 报告ID:" + parts[0];
    SplitPlain(first, '|');
    if |parts| == 1 {
      assert x == parts[0];
    } else {
      var rest := Join(parts[1..], '|');
      SplitJoin(parts[1..], '|');
      assert "> 报告ID:" + x == first + ['|'] + rest;
      SplitConcat(first, '|', rest);
    }
  }

  /** The ID is what the last line that names one says between the marker and the first bar. */
  lemma IdIs(text: string, a: seq<string>, line: string, b: seq<string>, x: string)
    requires Split(text, '\n') == a + [line] + b && Trim(line) == "> 报告ID:" + x
    requires forall i :: 0 <= i < |b| ==> !NamesId(b[i])
    ensures Parse(text).id == Trim(Split(x, '|')[0])
  {
    hide Split, Trim, NamesId, ReadAllMeta, Flush;
    var m := ReadAllMeta(Meta("", "", ""), a);
    ReadFrom(a, line, b);
    IdPart(x);
    LaterKeep(ReadMeta(m, line), b);
    AfterPrefix(ID_MARKER, Split(x, '|')[0]);
    AfterPrefix(ID_MARKER, x);
  }

  /** The severity is what the last such line with a bar says behind its first bar, up to the next if there is one,
      without the label. */
  lemma SeverityIs(text: string, a: seq<string>, line: string, b: seq<string>, x: string)
    requires Split(text, '\n') == a + [line] + b && Trim(line) == "> 报告ID:" + x && '|' in x
    requires forall i :: 0 <= i < |b| && NamesId(b[i]) ==> '|' !in Trim(b[i])
    ensures |Split(x, '|')| >= 2
    ensures var part := Trim(Split(x, '|')[1]);
            Parse(text).severity == if "严重级别:" <= part then Trim(part[5..]) else Trim(part)
  {
    hide Split, Trim, NamesId, ReadAllMeta, Flush;
    var m := ReadAllMeta(Meta("", "", ""), a);
    ReadFrom(a, line, b);
    IdPart(x);
    TwoParts(x);
    LaterKeep(ReadMeta(m, line), b);
    AfterPrefix(ID_MARKER, x);
  }

  lemma TwoParts(x: string)
    requires '|' in x
    ensures |Split(x, '|')| >= 2
  {
    JoinSplit(x, '|');
  }

  /** The summary is what the last line that names one says behind the marker. */
  lemma SummaryIs(text: string, a: seq<string>, line: string, b: seq<string>, x: string)
    requires Split(text, '\n') == a + [line] + b && Trim(line) == "> 摘要:" + x
    requires forall i :: 0 <= i < |b| ==> !NamesSummary(b[i])
    ensures Parse(text).summary == Trim(x)
  {
    hide Split, Trim, NamesSummary, ReadAllMeta, Flush;
    var m := ReadAllMeta(Meta("", "", ""), a);
    ReadFrom(a, line, b);
    LaterKeep(ReadMeta(m, line), b);
    AfterPrefix(SUMMARY_MARKER, x);
  }
}
