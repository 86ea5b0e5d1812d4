/** Adding a model to the text of config.yaml without disturbing the rest of the file. */
module ConfigInsert {
  import opened Text

  // ---------- Where the models block is ----------

  predicate StartsModels(line: string) {
    line == "models:" || "models: " <= line
  }

  /** Blank lines, indented lines and list items belong to the block. */
  predicate Continues(line: string) {
    line == "" || line[0] in {' ', '-', '\t'}
  }

  /** The first top-level line that starts the block, or |lines|. */
  function FindModels(lines: seq<string>): (i: nat)
    ensures i <= |lines|
    ensures i < |lines| ==> StartsModels(lines[i])
    ensures forall k :: 0 <= k < i ==> !StartsModels(lines[k])
  {
    if lines == [] || StartsModels(lines[0]) then 0 else 1 + FindModels(lines[1..])
  }

  /** The first line from `i` on that does not belong to the block, or |lines|. */
  function BlockEnd(lines: seq<string>, i: nat): (end: nat)
    requires i <= |lines|
    ensures i <= end <= |lines|
    ensures end < |lines| ==> !Continues(lines[end])
    ensures forall k :: i <= k < end ==> Continues(lines[k])
    decreases |lines| - i
  {
    if i == |lines| || !Continues(lines[i]) then i else BlockEnd(lines, i + 1)
  }

  /** Steps back over blank lines, not beyond `low`. */
  function BackOverBlanks(lines: seq<string>, low: nat, i: nat): (at: nat)
    requires low <= i <= |lines|
    ensures low <= at <= i
    ensures at > low ==> lines[at - 1] != ""
    ensures forall k :: at <= k < i ==> lines[k] == ""
    decreases i
  {
    if i > low && lines[i - 1] == "" then BackOverBlanks(lines, low, i - 1) else i
  }

  function InsertAt(lines: seq<string>): (at: nat)
    requires FindModels(lines) < |lines|
    ensures FindModels(lines) < at <= |lines|
  {
    var start := FindModels(lines);
    BackOverBlanks(lines, start + 1, BlockEnd(lines, start + 1))
  }

  predicate EndsLine(text: string) {
    text != "" && text[|text| - 1] == '\n'
  }

  /** The text with `entry` added to the models block; the block is created when it is missing. */
  function Inserted(text: string, entry: string): string {
    var lines := Split(text, '\n');
    if FindModels(lines) == |lines| then
      (if EndsLine(text) then text else text + "\n") + "models:\n" + entry + "\n"
    else
      var at := InsertAt(lines);
      Join(lines[..at] + Split(entry, '\n') + lines[at..], '\n')
  }

  method LocateModels(lines: seq<string>) returns (startIdx: nat)
    ensures startIdx == FindModels(lines)
  {
    startIdx := 0;
    while startIdx < |lines| && !StartsModels(lines[startIdx])
      invariant startIdx <= |lines|
      invariant forall k :: 0 <= k < startIdx ==> !StartsModels(lines[k])
    {
      startIdx := startIdx + 1;
    }
    var i := FindModels(lines);
    assert !(i < startIdx) && !(startIdx < i);
  }

  method LocateInsertion(lines: seq<string>, startIdx: nat) returns (insertAt: nat)
    requires startIdx == FindModels(lines) < |lines|
    ensures insertAt == InsertAt(lines)
  {
    hide Continues, FindModels;
    var endIdx := startIdx + 1;
    while endIdx < |lines| && Continues(lines[endIdx])
      invariant startIdx < endIdx <= |lines|
      invariant BlockEnd(lines, endIdx) == BlockEnd(lines, startIdx + 1)
    {
      endIdx := endIdx + 1;
    }
    insertAt := endIdx;
    while insertAt > startIdx + 1 && lines[insertAt - 1] == ""
      invariant startIdx < insertAt <= |lines|
      invariant BackOverBlanks(lines, startIdx + 1, insertAt) == BackOverBlanks(lines, startIdx + 1, endIdx)
    {
      insertAt := insertAt - 1;
    }
  }

  method InsertModelEntry(text: string, entry: string) returns (updated: string)
    ensures updated == Inserted(text, entry)
  {
    hide FindModels, InsertAt, Split, Join;
    var lines := Split(text, '\n');
    var startIdx := LocateModels(lines);
    if startIdx == |lines| {
      var ended := text;
      if !EndsLine(text) {
        ended := text + "\n";
      }
      return ended + "models:\n" + entry + "\n";
    }
    var insertAt := LocateInsertion(lines, startIdx);
    return Join(lines[..insertAt] + Split(entry, '\n') + lines[insertAt..], '\n');
  }

  // ---------- Nothing else changes ----------

  /** The line before which the new lines appear. */
  function Position(text: string): nat {
    var lines := Split(text, '\n');
    if FindModels(lines) < |lines| then InsertAt(lines)
    else if EndsLine(text) then |lines| - 1 else |lines|
  }

  /** The lines that appear: the entry's, after a new block header if there was no block, and before a final
      line break if the text had none. */
  function NewLines(text: string, entry: string): seq<string> {
    var lines := Split(text, '\n');
    if FindModels(lines) < |lines| then Split(entry, '\n')
    else ["models:"] + Split(entry, '\n') + (if EndsLine(text) then [] else [""])
  }

  lemma SplitBody(text: string)
    requires EndsLine(text)
    ensures var lines := Split(text, '\n');
            lines[|lines| - 1] == "" && lines == Split(text[..|text| - 1], '\n') + [""]
  {
    var body := text[..|text| - 1];
    assert text == body + "\n";
    SplitEnded(body);
  }

  lemma SplitHeader(entry: string)
    ensures Split("models:\n" + entry + "\n", '\n') == ["models:"] + Split(entry, '\n') + [""]
  {
    hide Split;
    SplitConcat("models:\n" + entry, '\n', "");
    SplitConcat("models:", '\n', entry);
    SplitPlain("models:", '\n');
    SplitPlain("", '\n');
    assert "models:" + "\n" + entry == "models:\n" + entry;
    ConcatNil("models:\n" + entry + "\n");
  }

  /** The complete lines of a text. */
  function Base(text: string): seq<string> {
    var lines := Split(text, '\n');
    if EndsLine(text) then lines[..|lines| - 1] else lines
  }

  /** The lines after a block was created. */
  lemma SplitNewBlock(text: string, entry: string)
    requires FindModels(Split(text, '\n')) == |Split(text, '\n')|
    ensures Split(Inserted(text, entry), '\n') == Base(text) + ["models:"] + Split(entry, '\n') + [""]
  {
    hide Split, FindModels;
    var block := "models:\n" + entry + "\n";
    var body := if EndsLine(text) then text[..|text| - 1] else text;
    BlockIsAppended(text, entry, body);
    SplitConcat(body, '\n', block);
    SplitHeader(entry);
    if EndsLine(text) {
      SplitBody(text);
      SnocInit(Split(body, '\n'), "");
    }
    ConcatAssoc(Base(text), ["models:"] + Split(entry, '\n'), [""]);
    ConcatAssoc(Base(text), ["models:"], Split(entry, '\n'));
  }

  lemma BlockIsAppended(text: string, entry: string, body: string)
    requires FindModels(Split(text, '\n')) == |Split(text, '\n')|
    requires body == if EndsLine(text) then text[..|text| - 1] else text
    ensures Inserted(text, entry) == body + "\n" + ("models:\n" + entry + "\n")
  {
    hide Split, FindModels;
    assert EndsLine(text) ==> text == body + "\n";
    ConcatAssoc(body + "\n", "models:\n" + entry, "\n");
    ConcatAssoc(body + "\n", "models:\n", entry);
  }

  lemma NewBlockIsLocal(text: string, entry: string)
    requires FindModels(Split(text, '\n')) == |Split(text, '\n')|
    ensures var lines := Split(text, '\n');
            && Position(text) <= |lines|
            && Base(text) + ["models:"] + Split(entry, '\n') + [""]
               == lines[..Position(text)] + NewLines(text, entry) + lines[Position(text)..]
  {
    hide Split, FindModels;
    var lines := Split(text, '\n');
    ConcatAssoc(Base(text), ["models:"], Split(entry, '\n'));
    if EndsLine(text) {
      SplitBody(text);
      assert lines[|lines| - 1..] == [""];
      ConcatNil(["models:"] + Split(entry, '\n'));
    } else {
      WholePrefix(lines);
      assert lines[|lines|..] == [];
      ConcatAssoc(lines, ["models:"] + Split(entry, '\n'), [""]);
      ConcatNil(lines + NewLines(text, entry));
    }
  }

  lemma SplitOldBlock(text: string, entry: string)
    requires FindModels(Split(text, '\n')) < |Split(text, '\n')|
    ensures var lines := Split(text, '\n');
            Split(Inserted(text, entry), '\n')
            == lines[..Position(text)] + NewLines(text, entry) + lines[Position(text)..]
  {
    hide Split, FindModels, InsertAt;
    var lines := Split(text, '\n');
    var all := lines[..InsertAt(lines)] + Split(entry, '\n') + lines[InsertAt(lines)..];
    assert forall i :: 0 <= i < |all| ==> '\n' !in all[i];
    SplitJoin(all, '\n');
  }

  /** The new text has the old lines, all of them and in order, with the new lines in one place. */
  lemma InsertionIsLocal(text: string, entry: string)
    ensures Position(text) <= |Split(text, '\n')|
    ensures var lines := Split(text, '\n');
            Split(Inserted(text, entry), '\n')
            == lines[..Position(text)] + NewLines(text, entry) + lines[Position(text)..]
  {
    if FindModels(Split(text, '\n')) < |Split(text, '\n')| {
      SplitOldBlock(text, entry);
    } else {
      hide Split, FindModels, Inserted, NewLines, Position;
      SplitNewBlock(text, entry);
      NewBlockIsLocal(text, entry);
    }
  }

  /** Removing the new lines restores the text to the last character. */
  lemma RemovalRestores(text: string, entry: string)
    ensures var lines := Split(Inserted(text, entry), '\n');
            var at, n := Position(text), |NewLines(text, entry)|;
            at + n <= |lines| && Join(lines[..at] + lines[at + n..], '\n') == text
  {
    hide Split, Join, Inserted, NewLines, Position;
    InsertionIsLocal(text, entry);
    CutOut(Split(text, '\n'), Position(text), NewLines(text, entry));
    JoinSplit(text, '\n');
  }

  lemma CutOut(before: seq<string>, at: nat, added: seq<string>)
    requires at <= |before|
    ensures var all := before[..at] + added + before[at..];
            all[..at] + all[at + |added|..] == before
  {
  }

  /** An existing block is extended at its end: the new lines come after its header and everything in it but
      trailing blank lines, and before the next top-level line. */
  lemma InsertionIsInTheBlock(text: string)
    requires FindModels(Split(text, '\n')) < |Split(text, '\n')|
    ensures var lines := Split(text, '\n');
            var start, at := FindModels(lines), Position(text);
            var end := BlockEnd(lines, start + 1);
            && start < at <= end
            && (forall k :: start < k < end ==> Continues(lines[k]))
            && (forall k :: at <= k < end ==> lines[k] == "")
            && (end < |lines| ==> !Continues(lines[end]))
  {
    hide Split, FindModels, Continues;
  }

  // ---------- The next top-level key ----------

  /** A comment in the first column. */
  predicate IsComment(line: string) {
    line != "" && line[0] == '#'
  }

  predicate IsTopLevelKey(line: string) {
    !Continues(line) && !IsComment(line)
  }

  /** The first line from `i` on that is a top-level key, or |lines|. */
  function NextKey(lines: seq<string>, i: nat): (end: nat)
    requires i <= |lines|
    ensures i <= end <= |lines|
    ensures end < |lines| ==> IsTopLevelKey(lines[end])
    ensures forall k :: i <= k < end ==> !IsTopLevelKey(lines[k])
    decreases |lines| - i
  {
    if i == |lines| || IsTopLevelKey(lines[i]) then i else NextKey(lines, i + 1)
  }

  predicate AllBlank(lines: seq<string>, i: nat, j: nat)
    requires j <= |lines|
  {
    forall k :: i <= k < j ==> lines[k] == ""
  }

  predicate NoComments(lines: seq<string>, i: nat, j: nat)
    requires j <= |lines|
  {
    forall k :: i <= k < j ==> !IsComment(lines[k])
  }

  lemma KeyBehindEnd(lines: seq<string>, i: nat)
    requires i <= |lines|
    ensures var end, key := BlockEnd(lines, i), NextKey(lines, i);
            && end <= key
            && (end < key ==> IsComment(lines[end]))
            && (end == key ==> NoComments(lines, i, key))
    decreases |lines| - i
  {
    if i < |lines| {
      KeyBehindEnd(lines, i + 1);
    }
  }

  /** Exactly when the new lines go, as described, just before the next top-level key or the end of the file, but for
      blank lines: when no comment starts in the first column between the block's header and that key. */
  lemma GoesBeforeNextKeyIff(lines: seq<string>)
    requires FindModels(lines) < |lines|
    ensures var start := FindModels(lines);
            var key := NextKey(lines, start + 1);
            AllBlank(lines, InsertAt(lines), key) <==> NoComments(lines, start + 1, key)
  {
    hide *;
    var start := FindModels(lines);
    InsertAtIsBehindBlock(lines);
    KeyBehindEnd(lines, start + 1);
    BlanksBeforeKeyIff(lines, start, InsertAt(lines), BlockEnd(lines, start + 1), NextKey(lines, start + 1));
  }

  lemma InsertAtIsBehindBlock(lines: seq<string>)
    requires FindModels(lines) < |lines|
    ensures var end := BlockEnd(lines, FindModels(lines) + 1);
            InsertAt(lines) <= end && AllBlank(lines, InsertAt(lines), end)
  {
    hide *;
    BackOverBlanksIsBlank(lines, FindModels(lines) + 1, BlockEnd(lines, FindModels(lines) + 1));
    InsertAtIs(lines);
  }

  lemma InsertAtIs(lines: seq<string>)
    requires FindModels(lines) < |lines|
    ensures InsertAt(lines) == BackOverBlanks(lines, FindModels(lines) + 1, BlockEnd(lines, FindModels(lines) + 1))
  {
    hide FindModels, BlockEnd, BackOverBlanks, Continues, StartsModels;
  }

  lemma BackOverBlanksIsBlank(lines: seq<string>, low: nat, i: nat)
    requires low <= i <= |lines|
    ensures AllBlank(lines, BackOverBlanks(lines, low, i), i)
  {
    hide BackOverBlanks;
  }

  lemma BlanksBeforeKeyIff(lines: seq<string>, start: nat, at: nat, end: nat, key: nat)
    requires start < at <= end <= key <= |lines|
    requires AllBlank(lines, at, end)
    requires end < key ==> IsComment(lines[end])
    requires end == key ==> NoComments(lines, start + 1, key)
    ensures AllBlank(lines, at, key) <==> NoComments(lines, start + 1, key)
  {
  }

  /** The smallest case in which they do not: behind a comment in the first column the block goes on, and the new
      lines go before the comment. */
  lemma CommentEndsBlock(header: string, item: string, comment: string, last: string)
    requires StartsModels(header) && item != "" && Continues(item) && last != "" && Continues(last)
    requires IsComment(comment)
    ensures var lines := [header, item, comment, last];
            FindModels(lines) == 0 && InsertAt(lines) == 2 && NextKey(lines, 1) == 4
  {
    var lines := [header, item, comment, last];
    assert lines[1] == item && lines[2] == comment && lines[3] == last;
  }

  // ---------- Repeated insertion ----------

  /** Every line of the entry is a list item, indented or blank, and the last one is not blank. */
  predicate IsBlockText(entry: string) {
    BlockLines(Split(entry, '\n'))
  }

  lemma {:induction false} FindModelsAt(lines: seq<string>, i: nat)
    requires i < |lines| && StartsModels(lines[i]) && forall k :: 0 <= k < i ==> !StartsModels(lines[k])
    ensures FindModels(lines) == i
  {
    var j := FindModels(lines);
    assert !(j < i) && !(i < j);
  }

  lemma BlockEndAt(lines: seq<string>, i: nat, end: nat)
    requires i <= end <= |lines| && (end < |lines| ==> !Continues(lines[end]))
    requires forall k :: i <= k < end ==> Continues(lines[k])
    ensures BlockEnd(lines, i) == end
  {
    var j := BlockEnd(lines, i);
    assert !(j < end) && !(end < j);
  }

  lemma BackOverBlanksAt(lines: seq<string>, low: nat, i: nat, at: nat)
    requires low <= at <= i <= |lines| && (at > low ==> lines[at - 1] != "")
    requires forall k :: at <= k < i ==> lines[k] == ""
    ensures BackOverBlanks(lines, low, i) == at
  {
    var j := BackOverBlanks(lines, low, i);
    assert !(j < at) && !(at < j);
  }

  /** Lines that belong to a block and do not end in a blank one. */
  predicate BlockLines(e: seq<string>) {
    (forall i :: 0 <= i < |e| ==> Continues(e[i])) && (e != [] ==> e[|e| - 1] != "")
  }

  lemma SpliceIndex(s: seq<string>, at: nat, e: seq<string>)
    requires at <= |s|
    ensures var t := s[..at] + e + s[at..];
            && (forall k :: 0 <= k < at ==> t[k] == s[k])
            && (forall k :: at <= k < at + |e| ==> t[k] == e[k - at])
            && (forall k :: at + |e| <= k < |t| ==> t[k] == s[k - |e|])
  {
  }

  /** After an insertion into a block, the next one goes directly behind it. */
  lemma NextInOldBlock(before: seq<string>, e: seq<string>)
    requires FindModels(before) < |before| && BlockLines(e) && e != []
    ensures var p := InsertAt(before);
            var lines := before[..p] + e + before[p..];
            FindModels(lines) < |lines| && InsertAt(lines) == p + |e|
  {
    hide Continues, StartsModels, FindModels, BlockEnd, BackOverBlanks;
    var start, p := FindModels(before), InsertAt(before);
    var end := BlockEnd(before, start + 1);
    var lines := before[..p] + e + before[p..];
    SpliceIndex(before, p, e);
    FindModelsAt(lines, start);
    BlockEndAt(lines, start + 1, end + |e|);
    BackOverBlanksAt(lines, start + 1, end + |e|, p + |e|);
  }

  /** The same for a block that was just created. */
  lemma NextInNewBlock(base: seq<string>, e: seq<string>)
    requires BlockLines(e) && e != [] && forall k :: 0 <= k < |base| ==> !StartsModels(base[k])
    ensures var lines := base + ["models:"] + e + [""];
            FindModels(lines) < |lines| && InsertAt(lines) == |base| + 1 + |e|
  {
    var lines, n := base + ["models:"] + e + [""], |base|;
    assert lines[n] == "models:" && lines[n + 1 + |e|] == "" && |lines| == n + |e| + 2;
    assert forall k :: n < k <= n + |e| ==> lines[k] == e[k - n - 1];
    FindModelsAt(lines, n);
    BlockEndAt(lines, n + 1, |lines|);
    BackOverBlanksAt(lines, n + 1, |lines|, n + 1 + |e|);
  }

  lemma SpliceAgain(s: seq<string>, at: nat, e1: seq<string>, e2: seq<string>)
    requires at <= |s|
    ensures var t := s[..at] + e1 + s[at..];
            t[..at + |e1|] + e2 + t[at + |e1|..] == s[..at] + (e1 + e2) + s[at..]
  {
  }

  lemma SpliceNew(base: seq<string>, e1: seq<string>, e2: seq<string>)
    ensures var t := base + ["models:"] + e1 + [""];
            var at := |base| + 1 + |e1|;
            t[..at] + e2 + t[at..] == base + ["models:"] + (e1 + e2) + [""]
  {
  }

  lemma BaseHasNoBlock(text: string)
    requires FindModels(Split(text, '\n')) == |Split(text, '\n')|
    ensures forall k :: 0 <= k < |Base(text)| ==> !StartsModels(Base(text)[k])
  {
    hide Split, StartsModels;
  }

  /** Inserting two entries, one after the other, is inserting them as one text: the second one's lines follow
      the first one's directly, whether or not the block existed before. */
  lemma InsertTwice(text: string, first: string, second: string)
    requires IsBlockText(first)
    ensures Inserted(Inserted(text, first), second) == Inserted(text, first + "\n" + second)
  {
    hide Split, FindModels, InsertAt, Inserted, Join, Base, Continues;
    var mid, both := Inserted(text, first), first + "\n" + second;
    var before := Split(text, '\n');
    var e1, e2 := Split(first, '\n'), Split(second, '\n');
    SplitConcat(first, '\n', second);
    if FindModels(before) < |before| {
      InsertionIsLocal(text, first);
      InsertionIsLocal(text, both);
      NextInOldBlock(before, e1);
      InsertionIsLocal(mid, second);
      SpliceAgain(before, InsertAt(before), e1, e2);
    } else {
      SplitNewBlock(text, first);
      SplitNewBlock(text, both);
      BaseHasNoBlock(text);
      NextInNewBlock(Base(text), e1);
      InsertionIsLocal(mid, second);
      SpliceNew(Base(text), e1, e2);
    }
    JoinSplit(Inserted(mid, second), '\n');
    JoinSplit(Inserted(text, both), '\n');
  }

  /** Any number of insertions, one after the other. */
  function InsertedAll(text: string, entries: seq<string>): string {
    if entries == [] then text else Inserted(InsertedAll(text, entries[..|entries| - 1]), entries[|entries| - 1])
  }

  /** Entries appear in the order in which they were added, with nothing between them. */
  lemma {:induction false} InsertionsKeepOrder(text: string, entries: seq<string>)
    requires entries != [] && forall i :: 0 <= i < |entries| ==> IsBlockText(entries[i])
    ensures InsertedAll(text, entries) == Inserted(text, Join(entries, '\n'))
    ensures IsBlockText(Join(entries, '\n'))
    decreases |entries|
  {
    var n := |entries| - 1;
    if n == 0 {
      assert entries[..0] == [] && entries == [entries[0]];
    } else {
      hide IsBlockText, Inserted, Join;
      InsertionsKeepOrder(text, entries[..n]);
      InsertTwice(text, Join(entries[..n], '\n'), entries[n]);
      JoinedEntries(entries);
    }
  }

  lemma JoinedEntries(entries: seq<string>)
    requires |entries| >= 2 && IsBlockText(entries[|entries| - 1])
    requires IsBlockText(Join(entries[..|entries| - 1], '\n'))
    ensures var n := |entries| - 1;
            Join(entries, '\n') == Join(entries[..n], '\n') + "\n" + entries[n]
    ensures IsBlockText(Join(entries, '\n'))
  {
    hide Split, Continues;
    var n := |entries| - 1;
    JoinConcat(entries[..n], [entries[n]], '\n');
    InitLast(entries);
    SplitConcat(Join(entries[..n], '\n'), '\n', entries[n]);
  }

  // ---------- What is inserted ----------

  /** The line reads "models:", alone or followed by a blank. */
  predicate HeadsBlock(line: string) {
    "models:" <= line && (|line| == 7 || line[7] == ' ')
  }

  predicate BelongsToBlock(line: string) {
    line == "" || line[0] == ' ' || line[0] == '\t' || line[0] == '-'
  }

  lemma LinesAreClassified(line: string)
    ensures HeadsBlock(line) <==> StartsModels(line)
    ensures BelongsToBlock(line) <==> Continues(line)
  {
    if |line| >= 8 {
      assert line[..8] == line[..7] + [line[7]];
    }
  }

  /** The block that starts at the first header and ends before the first line that does not belong to it; the position
      is the one before its trailing blank lines. */
  predicate IsBlock(lines: seq<string>, start: nat, at: nat, end: nat) {
    && start < at <= end <= |lines| && HeadsBlock(lines[start])
    && (forall k :: 0 <= k < start ==> !HeadsBlock(lines[k]))
    && (forall k :: start < k < end ==> BelongsToBlock(lines[k]))
    && (end < |lines| ==> !BelongsToBlock(lines[end]))
    && (forall k :: at <= k < end ==> lines[k] == "")
    && (at > start + 1 ==> lines[at - 1] != "")
  }

  /** The entry's lines are in the new text, one after another: in an existing block behind its last line that is not
      blank, and otherwise behind a new header at the end. */
  lemma EntryIsInserted(text: string, entry: string) returns (start: nat, at: nat, end: nat)
    ensures var lines, after := Split(text, '\n'), Split(Inserted(text, entry), '\n');
            if exists i :: 0 <= i < |lines| && HeadsBlock(lines[i]) then
              IsBlock(lines, start, at, end) && after == lines[..at] + Split(entry, '\n') + lines[at..]
            else
              exists base :: after == base + ["models:"] + Split(entry, '\n') + [""]
                             && (base == lines || (base + [""] == lines))
  {
    hide Split, InsertAt, Inserted, StartsModels, Continues, HeadsBlock, BelongsToBlock;
    var lines := Split(text, '\n');
    forall i | 0 <= i < |lines| ensures HeadsBlock(lines[i]) <==> StartsModels(lines[i]) {
      LinesAreClassified(lines[i]);
    }
    start, at, end := 0, 0, 0;
    if FindModels(lines) < |lines| {
      InsertionIsLocal(text, entry);
      start, at, end := BlockAt(lines);
      assert Split(Inserted(text, entry), '\n') == lines[..at] + Split(entry, '\n') + lines[at..];
    } else {
      SplitNewBlock(text, entry);
      if EndsLine(text) {
        SplitBody(text);
        InitLast(lines);
      }
      assert Split(Inserted(text, entry), '\n') == Base(text) + ["models:"] + Split(entry, '\n') + [""];
    }
  }

  lemma BlockAt(lines: seq<string>) returns (start: nat, at: nat, end: nat)
    requires FindModels(lines) < |lines|
    ensures IsBlock(lines, start, at, end) && at == InsertAt(lines)
  {
    hide StartsModels, Continues, HeadsBlock, BelongsToBlock;
    forall i | 0 <= i < |lines|
      ensures HeadsBlock(lines[i]) <==> StartsModels(lines[i])
      ensures BelongsToBlock(lines[i]) <==> Continues(lines[i])
    {
      LinesAreClassified(lines[i]);
    }
    start := FindModels(lines);
    end := BlockEnd(lines, start + 1);
    at := InsertAt(lines);
  }
}
