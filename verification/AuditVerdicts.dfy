/** Exactly which entries, sessions and runs of the audit log verify: over files of any content, loggers in any
    state, and writes that fail. */
module AuditVerdicts {
  import opened Text
  import opened AuditLog

  // ---------- Entries that do not verify ----------

  /** The messages the verifier hashes. */
  function Messages(lines: seq<string>): set<string> {
    if lines == [] then {} else
      var before := lines[..|lines| - 1];
      match SplitEntryAndHash(lines[|lines| - 1])
      case Legacy(_) => Messages(before)
      case Hashed(entry, _) => Messages(before) + {ChainEnd(before) + entry}
  }

  lemma {:induction false} TamperedInRange(mac: Mac, lines: seq<string>)
    ensures forall n :: n in Verify(mac, lines).tampered ==> 1 <= n <= |lines|
    ensures (Verify(mac, lines).firstTampered == -1) == (Verify(mac, lines).tampered == [])
  {
    if lines != [] {
      TamperedInRange(mac, lines[..|lines| - 1]);
    }
  }

  lemma LastNewline(s: string) returns (a: string, b: string)
    requires '\n' in s
    ensures s == a + "\n" + b && '\n' !in b
  {
    var i := |s| - 1;
    while s[i] != '\n'
      decreases i
      invariant 0 <= i < |s| && '\n' !in s[i + 1..]
    {
      i := i - 1;
    }
    a, b := s[..i], s[i + 1..];
  }

  lemma ChainEndIsNewlineFree(lines: seq<string>)
    requires forall i :: 0 <= i < |lines| ==> '\n' !in lines[i]
    ensures '\n' !in ChainEnd(lines)
  {
  }

  /** The part of a file after its last newline; empty for a complete file. */
  function Tail(content: string): string {
    var parts := Split(content, '\n');
    parts[|parts| - 1]
  }

  /** The lines of a file without its unterminated tail. */
  function EndedLines(content: string): seq<string> {
    var parts := Split(content, '\n');
    Keep(parts[..|parts| - 1])
  }

  lemma TailIsEmptyIffComplete(content: string)
    ensures Complete(content) <==> Tail(content) == ""
  {
    if content != "" {
      JoinSplit(content, '\n');
      var parts := Split(content, '\n');
      if |parts| > 1 {
        InitLast(parts);
        JoinConcat(parts[..|parts| - 1], [parts[|parts| - 1]], '\n');
      }
      if Tail(content) != "" {
        assert content[|content| - 1] == Tail(content)[|Tail(content)| - 1];
      }
    }
  }

  /** A text that is appended continues the unterminated tail. */
  lemma SplitMerged(content: string, text: string)
    ensures var parts := Split(content, '\n');
            Split(content + text, '\n') == parts[..|parts| - 1] + Split(Tail(content) + text, '\n')
  {
    hide Split;
    var parts := Split(content, '\n');
    var tail := Tail(content);
    JoinSplit(content, '\n');
    if |parts| == 1 {
      assert content == tail && parts[..0] == [];
      ConcatNil(Split(tail + text, '\n'));
    } else {
      var front := parts[..|parts| - 1];
      InitLast(parts);
      JoinConcat(front, [tail], '\n');
      SplitJoin(front, '\n');
      SplitConcat(Join(front, '\n'), '\n', tail + text);
      ConcatAssoc(Join(front, '\n') + ['\n'], tail, text);
    }
  }

  lemma SplitMergedLine(content: string, text: string)
    ensures var parts := Split(content, '\n');
            Split(content + text + "\n", '\n') == parts[..|parts| - 1] + Split(Tail(content) + text, '\n') + [""]
  {
    hide Split, Tail;
    var parts, tail := Split(content, '\n'), Tail(content);
    SplitMerged(content, text + "\n");
    SplitEnded(tail + text);
    ConcatAssoc(content, text, "\n");
    ConcatAssoc(tail, text, "\n");
    ConcatAssoc(parts[..|parts| - 1], Split(tail + text, '\n'), [""]);
  }

  lemma ReadMerged(content: string, text: string)
    requires ReadLines(content + text + "\n").Lines?
    ensures ReadLines(content + text + "\n").lines
         == EndedLines(content) + Keep(Split(Tail(content) + text, '\n'))
  {
    hide Split, Tail;
    var parts := Split(content, '\n');
    var front, added := parts[..|parts| - 1], Split(Tail(content) + text, '\n');
    SplitMergedLine(content, text);
    KeepSnoc(front + added, "");
    ConcatNil(Keep(front + added));
    KeepConcat(front, added);
  }

  lemma SplitNewlineEntry(a: string, b: string, h: string)
    requires HexDigest(h) && '\n' !in b
    ensures var line := EntryLine(b, h);
            Split(EntryLine(a + "\n" + b, h), '\n') == Split(a, '\n') + [line] && DropCR(line) == line
  {
    assert EntryLine(a + "\n" + b, h) == a + ['\n'] + EntryLine(b, h);
    LineIsOnePart(b, h);
    SplitConcat(a, '\n', EntryLine(b, h));
  }

  lemma NewlineDiffers(chain: string, prev: string, a: string, b: string)
    requires '\n' !in chain
    ensures chain + b != prev + (a + "\n" + b)
  {
    assert (prev + a + "\n")[|prev + a|] == '\n';
    SuffixCancels(chain, prev + a + "\n", b);
    assert prev + (a + "\n" + b) == (prev + a + "\n") + b;
  }

  lemma ChainOfParts(parts: seq<string>, more: seq<string>)
    requires forall i :: 0 <= i < |parts| ==> '\n' !in parts[i]
    requires forall i :: 0 <= i < |more| ==> '\n' !in more[i]
    ensures '\n' !in ChainEnd(Keep(parts) + Keep(more))
  {
    KeepIsNewlineFree(parts);
    KeepIsNewlineFree(more);
    ChainEndIsNewlineFree(Keep(parts) + Keep(more));
  }

  /** The verifier's verdict on a last line. */
  lemma LastLineVerdict(mac: Mac, lines: seq<string>, entry: string, hash: string)
    requires !Contains(hash, HASH_PREFIX)
    ensures var all := lines + [EntryLine(entry, hash)];
            |all| in Verify(mac, all).tampered <==> mac(ChainEnd(lines) + entry) != hash
    ensures ChainEnd(lines) + entry in Messages(lines + [EntryLine(entry, hash)])
  {
    VerifySnoc(mac, lines, entry, hash);
    TamperedInRange(mac, lines);
    SnocInit(lines, EntryLine(entry, hash));
    SplitEntryLine(entry, hash);
  }

  /** The chain state of a file with an unterminated tail is shorter than its ended state with the tail. */
  lemma TailLengthens(content: string)
    requires !Complete(content) && ReadLines(content).Lines?
    ensures |ChainEnd(ReadLines(content).lines)| < |ChainEnd(EndedLines(content)) + Tail(content)|
  {
    hide Split, Keep, Complete;
    var parts := Split(content, '\n');
    TailIsEmptyIffComplete(content);
    InitLast(parts);
    KeepSnoc(parts[..|parts| - 1], Tail(content));
    ConcatNil(EndedLines(content));
  }

  lemma CompleteChain(content: string)
    requires Complete(content) && ReadLines(content).Lines?
    ensures EndedLines(content) == ReadLines(content).lines && Tail(content) == ""
  {
    hide Split;
    var parts := Split(content, '\n');
    TailIsEmptyIffComplete(content);
    InitLast(parts);
    KeepSnoc(parts[..|parts| - 1], "");
    ConcatNil(EndedLines(content));
  }

  // ---------- Lines over the scanner's limit ----------

  lemma {:induction false} SplitExtends(p: string, text: string)
    requires '\n' !in p
    ensures |Split(p + text, '\n')[0]| >= |p|
  {
    if p != "" {
      assert (p + text)[1..] == p[1..] + text;
      SplitExtends(p[1..], text);
    }
  }

  /** A file that the scanner rejects stays rejected, whatever is appended. */
  lemma TooLongStays(content: string, text: string)
    requires ReadLines(content).TooLong?
    ensures ReadLines(content + text).TooLong?
  {
    hide Split, Keep;
    var parts := Split(content, '\n');
    var n := |parts| - 1;
    var i :| 0 <= i < |parts| && |parts[i]| > MAX_LINE;
    var all := Split(content + text, '\n');
    SplitMerged(content, text);
    if i < n {
      assert all[i] == parts[i];
    } else {
      SplitExtends(Tail(content), text);
      assert all[n] == Split(Tail(content) + text, '\n')[0];
    }
  }

  /** What is logged after an over-long line, in the same session or a later one, never makes the log readable
      again. */
  lemma {:induction false} RejectedForEver(mac: Mac, content: string, prev: string, es: seq<string>,
                                           batches: seq<seq<string>>)
    requires ReadLines(content).TooLong?
    ensures ReadLines(Session(mac, content, prev, es)).TooLong?
    ensures Sessions(mac, content, batches) == content
    decreases |es| + |batches|
  {
    hide ReadLines;
    if es != [] {
      RejectedForEver(mac, content, prev, es[..|es| - 1], []);
      var before := Session(mac, content, prev, es[..|es| - 1]);
      var line := EntryLine(es[|es| - 1], mac(EndOf(prev, HashesFrom(mac, prev, es[..|es| - 1])) + es[|es| - 1]));
      TooLongStays(before, line + "\n");
      ConcatAssoc(before, line, "\n");
    }
    if batches != [] {
      RejectedForEver(mac, content, prev, [], batches[..|batches| - 1]);
    }
  }

  /** Exactly when a newline-free entry leaves a readable log readable: the line it completes must fit. */
  lemma PlainEntryIsReadIff(mac: Mac, content: string, prev: string, entry: string)
    requires HexMac(mac) && ReadLines(content).Lines? && '\n' !in entry
    ensures ReadLines(Appended(mac, content, prev, entry)).Lines?
       <==> |Tail(content)| + |entry| + |HASH_PREFIX| + 64 <= MAX_LINE
  {
    hide Split, Keep;
    var h := mac(prev + entry);
    assert HexDigest(h);
    var p, parts := Tail(content), Split(content, '\n');
    var front := parts[..|parts| - 1];
    SplitMergedLine(content, EntryLine(entry, h));
    assert p + EntryLine(entry, h) == EntryLine(p + entry, h);
    LineIsOnePart(p + entry, h);
    var all := front + [EntryLine(p + entry, h)] + [""];
    assert Split(Appended(mac, content, prev, entry), '\n') == all;
    assert all[|front|] == EntryLine(p + entry, h);
  }

  // ---------- Exactly which entries verify ----------

  /** The writer rejects neither newlines in its arguments, nor lines over the limit, nor a file whose last
      line was cut off. */
  predicate CleanAppend(content: string, entry: string) {
    Complete(content) && Loggable(entry)
  }

  /** After the entry was logged the log can be read and its last line verifies. */
  predicate Accepted(mac: Mac, content: string, prev: string, entry: string) {
    var after := ReadLines(Appended(mac, content, prev, entry));
    after.Lines? && |after.lines| !in Verify(mac, after.lines).tampered
  }

  /** The messages of the writer and of a verifier after the entry do not collide. */
  ghost predicate NoCollision(mac: Mac, content: string, prev: string, entry: string) {
    var after := ReadLines(Appended(mac, content, prev, entry));
    after.Lines? ==> CollisionFree(mac, {prev + entry} + Messages(after.lines))
  }

  /** Whatever the logger takes for the chain state, an entry with a newline does not verify. */
  lemma NewlineEntryIsFlagged(mac: Mac, content: string, prev: string, entry: string)
    requires HexMac(mac) && '\n' in entry && NoCollision(mac, content, prev, entry)
    ensures !Accepted(mac, content, prev, entry)
  {
    hide Split, ReadLines, Verify, Messages, Contains;
    if ReadLines(Appended(mac, content, prev, entry)).Lines? {
      var h := mac(prev + entry);
      assert HexDigest(h);
      var a, b := LastNewline(entry);
      var p := Tail(content);
      ReadMerged(content, EntryLine(entry, h));
      assert p + EntryLine(entry, h) == EntryLine(p + a + "\n" + b, h);
      SplitNewlineEntry(p + a, b, h);
      KeepSnoc(Split(p + a, '\n'), EntryLine(b, h));
      var front := EndedLines(content) + Keep(Split(p + a, '\n'));
      ConcatAssoc(EndedLines(content), Keep(Split(p + a, '\n')), [EntryLine(b, h)]);
      var after := front + [EntryLine(b, h)];
      assert ReadLines(Appended(mac, content, prev, entry)).lines == after;
      HexIsNotASuffix(h);
      LastLineVerdict(mac, front, b, h);
      var parts := Split(content, '\n');
      ChainOfParts(parts[..|parts| - 1], Split(p + a, '\n'));
      NewlineDiffers(ChainEnd(front), prev, a, b);
    }
  }

  /** The state from which the next line of the file is verified, with the unterminated text that becomes the
      beginning of that line. */
  function MergeState(content: string): string {
    ChainEnd(EndedLines(content)) + Tail(content)
  }

  /** A newline-free entry becomes one line, together with the unterminated tail before it. */
  lemma ReadPlain(mac: Mac, content: string, prev: string, entry: string)
    requires HexMac(mac) && '\n' !in entry && ReadLines(Appended(mac, content, prev, entry)).Lines?
    ensures ReadLines(Appended(mac, content, prev, entry)).lines
         == EndedLines(content) + [EntryLine(Tail(content) + entry, mac(prev + entry))]
  {
    hide Split, ReadLines, EndedLines, Tail;
    var h, p := mac(prev + entry), Tail(content);
    assert HexDigest(h);
    TailIsPlain(content);
    ReadMerged(content, EntryLine(entry, h));
    assert p + EntryLine(entry, h) == EntryLine(p + entry, h);
    LineIsOnePart(p + entry, h);
    KeepOne(EntryLine(p + entry, h));
  }

  lemma TailIsPlain(content: string)
    ensures '\n' !in Tail(content)
  {
    hide Split;
  }

  lemma PlainEntryVerdict(mac: Mac, content: string, prev: string, entry: string)
    requires HexMac(mac) && '\n' !in entry && NoCollision(mac, content, prev, entry)
    requires ReadLines(Appended(mac, content, prev, entry)).Lines?
    ensures Accepted(mac, content, prev, entry) <==> prev == MergeState(content)
  {
    hide ReadLines, Verify, Messages, Contains, EndedLines, Tail, ChainEnd, EntryLine, Appended;
    var h, p, front := mac(prev + entry), Tail(content), EndedLines(content);
    assert HexDigest(h);
    ReadPlain(mac, content, prev, entry);
    HexIsNotASuffix(h);
    LastLineVerdict(mac, front, p + entry, h);
    ConcatAssoc(ChainEnd(front), p, entry);
    if prev != MergeState(content) {
      SuffixCancels(prev, MergeState(content), entry);
    }
  }

  /** The log stays readable, and the logger's state is the one from which the verifier takes up the entry. */
  predicate Continues(content: string, prev: string, entry: string) {
    && ReadLines(content).Lines? && '\n' !in entry
    && |Tail(content)| + |entry| + |HASH_PREFIX| + 64 <= MAX_LINE
    && prev == MergeState(content)
  }

  /** Exactly which logged entries verify, on any file and for any state of the logger - read from the file, left
      by a failed write, or stale because another logger wrote to the file. */
  lemma LoggedEntryVerifiesIff(mac: Mac, content: string, prev: string, entry: string)
    requires HexMac(mac) && NoCollision(mac, content, prev, entry)
    ensures Accepted(mac, content, prev, entry) <==> Continues(content, prev, entry)
  {
    hide ReadLines, NoCollision, MergeState, Tail;
    var line := EntryLine(entry, mac(prev + entry));
    if ReadLines(content).TooLong? {
      TooLongStays(content, line + "\n");
      ConcatAssoc(content, line, "\n");
    } else if '\n' in entry {
      NewlineEntryIsFlagged(mac, content, prev, entry);
    } else {
      PlainEntryIsReadIff(mac, content, prev, entry);
      if ReadLines(Appended(mac, content, prev, entry)).Lines? {
        PlainEntryVerdict(mac, content, prev, entry);
      }
    }
  }

  /** A logger whose state is the one it read from the file: its entry verifies if and only if the file's last
      line is terminated and the entry is free of newlines and fits the scanner. */
  lemma OpenedLoggerVerifiesIff(mac: Mac, content: string, prev: string, entry: string)
    requires HexMac(mac) && NoCollision(mac, content, prev, entry)
    requires ReadLines(content).Lines? && prev == ChainEnd(ReadLines(content).lines)
    ensures Accepted(mac, content, prev, entry) <==> CleanAppend(content, entry)
  {
    hide ReadLines, EndedLines, Tail, Complete, ChainEnd, NoCollision, Accepted;
    LoggedEntryVerifiesIff(mac, content, prev, entry);
    if Complete(content) {
      CompleteChain(content);
      ConcatNil(ChainEnd(EndedLines(content)));
    } else {
      TailLengthens(content);
    }
  }

  /** A second logger on the same file makes the state of the first one stale: the next entry of the first
      verifies only if its state happens to be the hash that the second has written. */
  lemma StaleLoggerVerifiesIff(mac: Mac, content: string, prev: string, other: string, entry: string)
    requires HexMac(mac) && Complete(content) && ReadLines(content).Lines? && Loggable(other)
    requires NoCollision(mac, Appended(mac, content, prev, other), prev, entry)
    ensures Accepted(mac, Appended(mac, content, prev, other), prev, entry)
       <==> Loggable(entry) && prev == mac(prev + other)
  {
    hide ReadLines, Tail, EndedLines, Complete, NoCollision, Accepted;
    var file := Appended(mac, content, prev, other);
    ReadEntry(mac, content, prev, other);
    CompleteChain(file);
    assert HexDigest(mac(prev + other));
    HexIsNotASuffix(mac(prev + other));
    ChainEndSnoc(ReadLines(content).lines, other, mac(prev + other));
    ConcatNil(ChainEnd(EndedLines(file)));
    LoggedEntryVerifiesIff(mac, file, prev, entry);
  }

  // ---------- After a write that failed ----------

  /** The file after a write of which only the first `written` bytes were accepted. */
  function Broken(mac: Mac, content: string, prev: string, broken: string, written: nat): string
    requires written <= |EntryLine(broken, mac(prev + broken))|
  {
    content + EntryLine(broken, mac(prev + broken))[..written]
  }

  /** Text behind a complete file: its ended parts are new lines, its last part is the new tail. */
  lemma AppendedParts(content: string, p: string)
    requires Complete(content) && ReadLines(content).Lines?
    ensures var parts := Split(p, '\n');
            var n := |parts| - 1;
            && Tail(content + p) == parts[n]
            && EndedLines(content + p) == ReadLines(content).lines + Keep(parts[..n])
            && (ReadLines(content + p).Lines? <==> Fits(parts))
  {
    hide Split, Keep, Complete, Tail;
    var parts, before := Split(p, '\n'), Split(content, '\n');
    var n, m := |parts| - 1, |before| - 1;
    SplitMerged(content, p);
    CompleteChain(content);
    ConcatNil(p);
    InitLast(parts);
    ConcatAssoc(before[..m], parts[..n], [parts[n]]);
    SnocInit(before[..m] + parts[..n], parts[n]);
    KeepConcat(before[..m], parts[..n]);
    FitsSplit(before[..m], parts);
    TailOf(content + p);
  }

  lemma TailOf(content: string)
    ensures var parts := Split(content, '\n');
            Tail(content) == parts[|parts| - 1] && EndedLines(content) == Keep(parts[..|parts| - 1])
  {
    hide Split, Keep;
  }

  lemma FitsSplit(a: seq<string>, b: seq<string>)
    ensures Fits(a + b) <==> Fits(a) && Fits(b)
  {
    assert forall i :: 0 <= i < |b| ==> (a + b)[|a| + i] == b[i];
    assert forall i :: 0 <= i < |a| ==> (a + b)[i] == a[i];
  }

  /** Exactly when the same logger's next entry verifies after a write that failed anywhere in any entry: the
      logger's state must be the one that the lines of the broken text end in, followed by the text behind its
      last newline. */
  lemma AfterFailedWrite(mac: Mac, content: string, prev: string, broken: string, written: nat, entry: string)
    requires HexMac(mac) && Complete(content) && ReadLines(content).Lines?
    requires written <= |EntryLine(broken, mac(prev + broken))|
    requires NoCollision(mac, Broken(mac, content, prev, broken, written), prev, entry)
    ensures var parts := Split(EntryLine(broken, mac(prev + broken))[..written], '\n');
            var n := |parts| - 1;
            Accepted(mac, Broken(mac, content, prev, broken, written), prev, entry)
            <==> && Fits(parts) && '\n' !in entry && |parts[n]| + |entry| + |HASH_PREFIX| + 64 <= MAX_LINE
                 && prev == ChainEnd(ReadLines(content).lines + Keep(parts[..n])) + parts[n]
  {
    hide ReadLines, Keep, Split, Tail, EndedLines, Fits, Complete, NoCollision, Accepted, ChainEnd;
    AppendedParts(content, EntryLine(broken, mac(prev + broken))[..written]);
    LoggedEntryVerifiesIff(mac, Broken(mac, content, prev, broken, written), prev, entry);
  }

  /** If the broken entry has no newline, that is when nothing of it reached the file. */
  lemma AfterFailedPlainWrite(mac: Mac, content: string, prev: string, broken: string, written: nat, entry: string)
    requires HexMac(mac) && Complete(content) && ReadLines(content).Lines?
    requires prev == ChainEnd(ReadLines(content).lines) && '\n' !in broken
    requires written <= |EntryLine(broken, mac(prev + broken))|
    requires NoCollision(mac, Broken(mac, content, prev, broken, written), prev, entry)
    ensures Accepted(mac, Broken(mac, content, prev, broken, written), prev, entry)
       <==> written == 0 && Loggable(entry)
  {
    hide ReadLines, Complete, NoCollision, Accepted, ChainEnd;
    var h := mac(prev + broken);
    assert HexDigest(h);
    LineIsOnePart(broken, h);
    var p := EntryLine(broken, h)[..written];
    PlainPrefix(EntryLine(broken, h), written);
    SplitPlain(p, '\n');
    assert [p][..0] == [] && Keep([]) == [];
    ConcatNil(ReadLines(content).lines);
    assert p == "" ==> prev + p == prev;
    AfterFailedWrite(mac, content, prev, broken, written, entry);
  }

  /** If it has one, a file that looks clean may be left behind: with a chain under way, a write that fails right
      behind the first newline of the entry ends the file with a line without a hash, and the same logger's next
      entry does not verify, however clean it is. */
  lemma FailedNewlineWriteIsNotClean(mac: Mac, content: string, a: string, b: string, entry: string)
    requires HexMac(mac) && Complete(content) && ReadLines(content).Lines?
    requires ChainEnd(ReadLines(content).lines) != ""
    requires '\n' !in a && DropCR(a) != "" && |a| <= MAX_LINE && !Contains(DropCR(a), HASH_PREFIX)
    requires var prev := ChainEnd(ReadLines(content).lines);
             NoCollision(mac, content + (a + "\n"), prev, entry)
    ensures var prev := ChainEnd(ReadLines(content).lines);
            && EntryLine(a + "\n" + b, mac(prev + (a + "\n" + b)))[..|a| + 1] == a + "\n"
            && ReadLines(content + (a + "\n")).Lines? && Complete(content + (a + "\n"))
            && !Accepted(mac, content + (a + "\n"), prev, entry)
  {
    hide ReadLines, NoCollision, Contains, Accepted, MergeState, ChainEnd, DropCR, SplitEntryAndHash, Complete, Tail;
    var prev := ChainEnd(ReadLines(content).lines);
    CutBehindNewline(a, b, mac(prev + (a + "\n" + b)));
    LineAdded(content, a);
    HashedIff(DropCR(a));
    ChainEndLegacy(ReadLines(content).lines, DropCR(a));
    OpenedStateIsMerged(content + (a + "\n"));
    LoggedEntryVerifiesIff(mac, content + (a + "\n"), prev, entry);
  }

  lemma CutBehindNewline(a: string, b: string, h: string)
    ensures |EntryLine(a + "\n" + b, h)| > |a| && EntryLine(a + "\n" + b, h)[..|a| + 1] == a + "\n"
  {
    assert EntryLine(a + "\n" + b, h) == (a + "\n") + (b + HASH_PREFIX + h);
  }

  lemma LineAdded(content: string, a: string)
    requires Complete(content) && ReadLines(content).Lines?
    requires '\n' !in a && DropCR(a) != "" && |a| <= MAX_LINE
    ensures ReadLines(content + (a + "\n")) == Lines(ReadLines(content).lines + [DropCR(a)])
    ensures Complete(content + (a + "\n"))
  {
    hide ReadLines, Complete, DropCR, Keep;
    SplitPlain(a, '\n');
    ReadAppended(content, a);
    ConcatAssoc(content, a, "\n");
    KeepOne(a);
  }

  lemma KeepOne(a: string)
    requires DropCR(a) != ""
    ensures Keep([a]) == [DropCR(a)]
  {
    assert [a][..0] == [];
  }

  lemma ChainEndLegacy(lines: seq<string>, line: string)
    requires SplitEntryAndHash(line).Legacy?
    ensures ChainEnd(lines + [line]) == ""
  {
  }

  lemma OpenedStateIsMerged(content: string)
    requires Complete(content) && ReadLines(content).Lines?
    ensures MergeState(content) == ChainEnd(ReadLines(content).lines)
  {
    hide ReadLines, EndedLines, Tail, Complete, ChainEnd;
    CompleteChain(content);
    ConcatNil(ChainEnd(EndedLines(content)));
  }

  lemma PlainPrefix(line: string, n: nat)
    requires Split(line, '\n') == [line] && n <= |line|
    ensures '\n' !in line[..n]
  {
    assert '\n' !in Split(line, '\n')[0];
  }

  // ---------- Exactly which runs verify ----------

  /** Every entry of the session verifies once it is logged. */
  predicate SessionAccepted(mac: Mac, content: string, prev: string, es: seq<string>) {
    es == [] ||
    var before := es[..|es| - 1];
    && SessionAccepted(mac, content, prev, before)
    && Accepted(mac, Session(mac, content, prev, before), EndOf(prev, HashesFrom(mac, prev, before)), es[|es| - 1])
  }

  ghost predicate SessionNoCollision(mac: Mac, content: string, prev: string, es: seq<string>) {
    es == [] ||
    var before := es[..|es| - 1];
    && SessionNoCollision(mac, content, prev, before)
    && NoCollision(mac, Session(mac, content, prev, before), EndOf(prev, HashesFrom(mac, prev, before)),
                   es[|es| - 1])
  }

  /** Every session can open the log, and every entry of every session verifies once it is logged. */
  predicate AllAccepted(mac: Mac, content: string, batches: seq<seq<string>>) {
    batches == [] ||
    var before := Sessions(mac, content, batches[..|batches| - 1]);
    && AllAccepted(mac, content, batches[..|batches| - 1])
    && ReadLines(before).Lines?
    && SessionAccepted(mac, before, ChainEnd(ReadLines(before).lines), batches[|batches| - 1])
  }

  ghost predicate AllNoCollision(mac: Mac, content: string, batches: seq<seq<string>>) {
    batches == [] ||
    var before := Sessions(mac, content, batches[..|batches| - 1]);
    && AllNoCollision(mac, content, batches[..|batches| - 1])
    && (ReadLines(before).Lines? ==>
          SessionNoCollision(mac, before, ChainEnd(ReadLines(before).lines), batches[|batches| - 1]))
  }

  lemma AllLoggableSnoc(es: seq<string>)
    requires es != []
    ensures AllLoggable(es) <==> AllLoggable(es[..|es| - 1]) && Loggable(es[|es| - 1])
  {
  }

  /** The file and the logger's state after a session of loggable entries. */
  lemma SessionState(mac: Mac, content: string, prev: string, es: seq<string>)
    requires HexMac(mac) && ReadLines(content).Lines? && prev == ChainEnd(ReadLines(content).lines)
    requires AllLoggable(es) && (es == [] || Complete(content))
    ensures var after := Session(mac, content, prev, es);
            && ReadLines(after).Lines? && (Complete(after) <==> Complete(content))
            && EndOf(prev, HashesFrom(mac, prev, es)) == ChainEnd(ReadLines(after).lines)
  {
    hide ReadLines, Complete;
    if es != [] {
      ReadSession(mac, content, prev, es);
      HashesAreHex(mac, prev, es);
      ChainEndOf(ReadLines(content).lines, es, HashesFrom(mac, prev, es));
    }
  }

  /** A session that opened a readable log: every entry verifies if and only if every entry is loggable and the
      file ended with a newline. */
  lemma {:induction false} SessionAcceptedIff(mac: Mac, content: string, prev: string, es: seq<string>)
    requires HexMac(mac) && ReadLines(content).Lines? && prev == ChainEnd(ReadLines(content).lines)
    requires SessionNoCollision(mac, content, prev, es)
    ensures SessionAccepted(mac, content, prev, es) <==> es == [] || (Complete(content) && AllLoggable(es))
  {
    hide ReadLines, Complete, Accepted, NoCollision, Loggable, AllLoggable, Session;
    if es != [] {
      var before, e := es[..|es| - 1], es[|es| - 1];
      AllLoggableSnoc(es);
      NoneLoggable();
      SessionAcceptedIff(mac, content, prev, before);
      if SessionAccepted(mac, content, prev, before) {
        SessionState(mac, content, prev, before);
        OpenedLoggerVerifiesIff(mac, Session(mac, content, prev, before),
                                EndOf(prev, HashesFrom(mac, prev, before)), e);
      }
    }
  }

  lemma NoneLoggable()
    ensures AllLoggable([])
  {
  }

  lemma FlattenEmpty(batches: seq<seq<string>>)
    ensures Flatten(batches) == []
       <==> batches == [] || (Flatten(batches[..|batches| - 1]) == [] && batches[|batches| - 1] == [])
  {
  }

  lemma {:induction false} ReadableSessions(mac: Mac, content: string, batches: seq<seq<string>>)
    requires HexMac(mac) && ReadLines(content).Lines?
    requires EachLoggable(batches)
    requires Flatten(batches) == [] || Complete(content)
    ensures var after := Sessions(mac, content, batches);
            ReadLines(after).Lines? && (Complete(after) <==> Complete(content))
  {
    hide ReadLines, Complete, AllLoggable, Flatten;
    if batches != [] {
      var n := |batches| - 1;
      FlattenEmpty(batches);
      ReadableSessions(mac, content, batches[..n]);
      var before := Sessions(mac, content, batches[..n]);
      SessionState(mac, before, ChainEnd(ReadLines(before).lines), batches[n]);
    }
  }

  /** Nothing was logged, or every entry is loggable and the file ended with a newline. */
  predicate CleanRun(content: string, batches: seq<seq<string>>) {
    Flatten(batches) == [] || (Complete(content) && EachLoggable(batches))
  }

  lemma CleanRunSnoc(content: string, batches: seq<seq<string>>)
    requires batches != []
    ensures var last := batches[|batches| - 1];
            CleanRun(content, batches)
            <==> CleanRun(content, batches[..|batches| - 1])
                 && (last == [] || (Complete(content) && AllLoggable(last)))
  {
    hide Complete, AllLoggable, EachLoggable, Flatten;
    FlattenEmpty(batches);
    EachLoggableSnoc(batches);
    LoggableIfEmpty(batches);
    LoggableIfEmpty(batches[..|batches| - 1]);
    NoneLoggable();
  }

  /** Exactly when all entries of all sessions verify, over any number of restarts and on any file that can be
      read: when there are none, or the file's last line was terminated and every entry is free of newlines and
      fits the scanner. */
  lemma {:induction false} AllAcceptedIff(mac: Mac, content: string, batches: seq<seq<string>>)
    requires HexMac(mac) && ReadLines(content).Lines? && AllNoCollision(mac, content, batches)
    ensures AllAccepted(mac, content, batches) <==> CleanRun(content, batches)
  {
    if batches == [] {
      assert Flatten(batches) == [];
    } else {
      hide ReadLines, Complete, HexMac, Sessions, AllLoggable, CleanRun, SessionAccepted, SessionNoCollision;
      var front, last := batches[..|batches| - 1], batches[|batches| - 1];
      AllAcceptedIff(mac, content, front);
      CleanRunSnoc(content, batches);
      if CleanRun(content, front) {
        CleanSessions(mac, content, front);
        var before := Sessions(mac, content, front);
        SessionAcceptedIff(mac, before, ChainEnd(ReadLines(before).lines), last);
      }
    }
  }

  lemma {:induction false} NothingLogged(mac: Mac, content: string, batches: seq<seq<string>>)
    requires Flatten(batches) == []
    ensures Sessions(mac, content, batches) == content
  {
    if batches != [] {
      FlattenEmpty(batches);
      NothingLogged(mac, content, batches[..|batches| - 1]);
    }
  }

  /** Restart agreement, on any file that the scanner can read - valid, tampered, legacy or cut off.  Every entry of
      every later session verifies, even when its text contains a hash prefix, if and only if there is none, or the
      file's last line was terminated and all entries are free of newlines and fit the scanner; and then the final
      report counts exactly the new entries as valid and is otherwise the old one. */
  lemma RestartAgreement(mac: Mac, content: string, batches: seq<seq<string>>)
    requires HexMac(mac) && ReadLines(content).Lines?
    ensures AllNoCollision(mac, content, batches) ==>
              (AllAccepted(mac, content, batches) <==> CleanRun(content, batches))
    ensures CleanRun(content, batches) ==>
              var r := Verify(mac, ReadLines(content).lines);
              var n := |Flatten(batches)|;
              && ReadLines(Sessions(mac, content, batches)).Lines?
              && Verify(mac, ReadLines(Sessions(mac, content, batches)).lines)
                 == r.(total := r.total + n, valid := r.valid + n)
  {
    hide Complete, ReadLines, Sessions, Verify, AllAccepted, AllNoCollision, EachLoggable, Flatten;
    if AllNoCollision(mac, content, batches) {
      AllAcceptedIff(mac, content, batches);
    }
    if Flatten(batches) == [] {
      NothingLogged(mac, content, batches);
    } else if CleanRun(content, batches) {
      SessionsReport(mac, content, batches);
    }
  }

  lemma CleanSessions(mac: Mac, content: string, batches: seq<seq<string>>)
    requires HexMac(mac) && ReadLines(content).Lines? && CleanRun(content, batches)
    ensures var after := Sessions(mac, content, batches);
            ReadLines(after).Lines? && (Complete(after) <==> Complete(content))
  {
    LoggableIfEmpty(batches);
    ReadableSessions(mac, content, batches);
  }

  lemma {:induction false} LoggableIfEmpty(batches: seq<seq<string>>)
    ensures Flatten(batches) == [] ==> EachLoggable(batches)
  {
    if batches != [] {
      LoggableIfEmpty(batches[..|batches| - 1]);
    }
  }

  /** Every line is counted once: as valid, as tampered or as skipped. */
  lemma {:induction false} TotalsAddUp(mac: Mac, lines: seq<string>)
    ensures var r := Verify(mac, lines);
            r.total == r.valid + |r.tampered| && r.total + r.skipped == |lines|
            && (r.IsValid() <==> r.tampered == [])
  {
    if lines != [] {
      TotalsAddUp(mac, lines[..|lines| - 1]);
      TamperedInRange(mac, lines[..|lines| - 1]);
    }
  }

  /** Exactly when the verifier counts every line: when every line has a hash. */
  lemma {:induction false} TotalIsLinesIff(mac: Mac, lines: seq<string>)
    ensures Verify(mac, lines).total <= |lines|
    ensures Verify(mac, lines).total == |lines|
       <==> forall i :: 0 <= i < |lines| ==> Contains(lines[i], HASH_PREFIX)
  {
    hide Contains, Verify;
    if lines == [] {
      assert Verify(mac, lines).total == 0 by {
        TotalsAddUp(mac, lines);
      }
    } else {
      var n := |lines| - 1;
      TotalIsLinesIff(mac, lines[..n]);
      TotalStep(mac, lines);
      assert forall i :: 0 <= i < n ==> lines[..n][i] == lines[i];
    }
  }

  lemma TotalStep(mac: Mac, lines: seq<string>)
    requires lines != []
    ensures Verify(mac, lines).total
         == Verify(mac, lines[..|lines| - 1]).total + (if Contains(lines[|lines| - 1], HASH_PREFIX) then 1 else 0)
  {
    hide Contains, SplitEntryAndHash;
    HashedIff(lines[|lines| - 1]);
  }

  lemma HashedIff(line: string)
    ensures SplitEntryAndHash(line).Hashed? <==> Contains(line, HASH_PREFIX)
  {
    if Contains(line, HASH_PREFIX) {
      var i :| 0 <= i <= |line| && OccursAt(line, HASH_PREFIX, i);
    }
  }

  // ---------- The log of a fresh file ----------

  function Hashes(mac: Mac, es: seq<string>): (hs: seq<string>)
    ensures |hs| == |es|
  {
    HashesFrom(mac, "", es)
  }

  lemma ReadEmpty()
    ensures ReadLines("") == Lines([])
  {
    KeepSnoc([], "");
    ConcatNil([""]);
  }

  lemma {:induction false} KeepFits(parts: seq<string>)
    requires Fits(parts)
    ensures forall i :: 0 <= i < |Keep(parts)| ==> |Keep(parts)[i]| <= MAX_LINE
  {
    if parts != [] {
      KeepFits(parts[..|parts| - 1]);
    }
  }

  lemma ReadLinesAreLines(file: string, line: string)
    requires ReadLines(file).Lines? && line in ReadLines(file).lines
    ensures '\n' !in line && |line| <= MAX_LINE
  {
    KeepIsNewlineFree(Split(file, '\n'));
    KeepFits(Split(file, '\n'));
  }

  lemma {:induction false} LinesOfAt(es: seq<string>, hs: seq<string>, i: nat)
    requires i < |es| == |hs|
    ensures LinesOf(es, hs)[i] == EntryLine(es[i], hs[i])
  {
    if i < |es| - 1 {
      LinesOfAt(es[..|es| - 1], hs[..|es| - 1], i);
    }
  }

  lemma {:induction false} FlattenIsLoggable(batches: seq<seq<string>>)
    ensures AllLoggable(Flatten(batches)) <==> EachLoggable(batches)
  {
    hide Loggable;
    if batches != [] {
      var front, last := Flatten(batches[..|batches| - 1]), batches[|batches| - 1];
      FlattenIsLoggable(batches[..|batches| - 1]);
      EachLoggableSnoc(batches);
      assert forall i :: 0 <= i < |front| ==> Flatten(batches)[i] == front[i];
      assert forall i :: 0 <= i < |last| ==> Flatten(batches)[|front| + i] == last[i];
    }
  }

  /** Exactly when a complete file is read back with one more chained line for each entry. */
  lemma ReadSessionsIff(mac: Mac, content: string, batches: seq<seq<string>>)
    requires HexMac(mac) && Complete(content) && ReadLines(content).Lines?
    ensures ReadLines(Sessions(mac, content, batches))
            == Lines(Extended(mac, ReadLines(content).lines, Flatten(batches)))
       <==> EachLoggable(batches)
  {
    hide ReadLines, Complete, Sessions, Flatten, LinesOf, HashesFrom, EachLoggable;
    var lines, es := ReadLines(content).lines, Flatten(batches);
    if EachLoggable(batches) {
      ReadSessions(mac, content, batches);
    } else if ReadLines(Sessions(mac, content, batches)) == Lines(Extended(mac, lines, es)) {
      var hs := HashesFrom(mac, ChainEnd(lines), es);
      forall i | 0 <= i < |es| ensures Loggable(es[i]) {
        LinesOfAt(es, hs, i);
        assert Extended(mac, lines, es)[|lines| + i] == EntryLine(es[i], hs[i]);
        ReadLinesAreLines(Sessions(mac, content, batches), EntryLine(es[i], hs[i]));
        HashesAreHex(mac, ChainEnd(lines), es);
        assert '\n' !in es[i];
      }
      FlattenIsLoggable(batches);
    }
  }

  /** The log that any number of sessions write to a fresh file consists of the chained lines of its entries if
      and only if every entry is free of newlines and fits the scanner. */
  lemma WrittenLog(mac: Mac, batches: seq<seq<string>>)
    requires HexMac(mac)
    ensures var es := Flatten(batches);
            ReadLines(Sessions(mac, "", batches)) == Lines(LinesOf(es, Hashes(mac, es))) <==> EachLoggable(batches)
  {
    hide Sessions, HashesFrom, LinesOf, Flatten, ReadLines, EachLoggable;
    ReadEmpty();
    ReadSessionsIff(mac, "", batches);
    ConcatNil(LinesOf(Flatten(batches), Hashes(mac, Flatten(batches))));
  }
}
