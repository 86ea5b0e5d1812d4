/** The HMAC-chained audit log: the append-only writer, its restart path, and the verifier.

    The file is a string in which each character stands for one byte.  The keyed hash is an arbitrary
    function `mac` from messages to 64 hexadecimal digits; where a theorem needs collision resistance it asks
    for it on the finitely many messages that the writer and the verifier hash. */
module AuditLog {
  import opened Text

  type Mac = string -> string

  const HASH_PREFIX: string := " | hash:"

  /** bufio.Scanner's buffer: a line longer than this makes both readers fail. */
  const MAX_LINE: nat := 65535

  predicate IsHex(c: char) {
    '0' <= c <= '9' || 'a' <= c <= 'f'
  }

  predicate HexDigest(h: string) {
    |h| == 64 && forall i :: 0 <= i < 64 ==> IsHex(h[i])
  }

  ghost predicate HexMac(mac: Mac) {
    forall m :: HexDigest(mac(m))
  }

  ghost predicate CollisionFree(mac: Mac, messages: set<string>) {
    forall x, y :: x in messages && y in messages && mac(x) == mac(y) ==> x == y
  }

  // ---------- Lines of a file ----------

  datatype Scanned = Lines(lines: seq<string>) | TooLong

  function DropCR(line: string): string {
    if line != "" && line[|line| - 1] == '\r' then line[..|line| - 1] else line
  }

  /** What both readers keep of the newline-separated parts of a file: a carriage return at the end of a line
      is dropped, and lines that are empty then are skipped. */
  function Keep(parts: seq<string>): seq<string> {
    if parts == [] then []
    else
      var line := DropCR(parts[|parts| - 1]);
      Keep(parts[..|parts| - 1]) + (if line != "" then [line] else [])
  }

  predicate Fits(parts: seq<string>) {
    forall i :: 0 <= i < |parts| ==> |parts[i]| <= MAX_LINE
  }

  function ReadLines(file: string): Scanned {
    var parts := Split(file, '\n');
    if Fits(parts) then Lines(Keep(parts)) else TooLong
  }

  predicate Complete(file: string) {
    file == "" || file[|file| - 1] == '\n'
  }

  // ---------- Entries ----------

  /** A legacy line has no hash suffix. */
  datatype Parsed = Hashed(entry: string, hash: string) | Legacy(text: string)

  function SplitEntryAndHash(line: string): Parsed {
    var idx := LastIndex(line, HASH_PREFIX);
    if idx < 0 then Legacy(line) else Hashed(line[..idx], line[idx + |HASH_PREFIX|..])
  }

  function ExtractHash(line: string): string {
    var idx := LastIndex(line, HASH_PREFIX);
    if idx < 0 then "" else line[idx + |HASH_PREFIX|..]
  }

  function EntryLine(entry: string, hash: string): string {
    entry + HASH_PREFIX + hash
  }

  datatype Entry = Entry(
    timestamp: string, role: string, target: string, operation: string, reason: string, result: string)
  {
    function Text(): string {
      timestamp + " | " + role + " | " + target + " | " + operation
      + " | reason: " + reason + " | result: " + result
    }

    /** The layout of RFC 3339, section 5.6, as far as it matters: a four-digit year, a dash, no newline. */
    predicate Stamped() {
      |timestamp| >= 20 && timestamp[4] == '-' && '\n' !in timestamp
    }
  }

  // ---------- Specification of the verifier ----------

  datatype VerifyResult = VerifyResult(
    total: nat, valid: nat, firstTampered: int, tampered: seq<int>, skipped: nat)
  {
    predicate IsValid() {
      firstTampered == -1
    }
  }

  /** The hash the chain has reached after `lines`. */
  function ChainEnd(lines: seq<string>): string {
    if lines == [] then "" else
      match SplitEntryAndHash(lines[|lines| - 1])
      case Hashed(_, hash) => hash
      case Legacy(_) => ""
  }

  function Judge(mac: Mac, r: VerifyResult, lineNum: int, prev: string, line: string): VerifyResult {
    match SplitEntryAndHash(line)
    case Legacy(_) => r.(skipped := r.skipped + 1)
    case Hashed(entry, hash) =>
      if mac(prev + entry) == hash then r.(total := r.total + 1, valid := r.valid + 1)
      else r.(total := r.total + 1, tampered := r.tampered + [lineNum],
              firstTampered := if r.firstTampered == -1 then lineNum else r.firstTampered)
  }

  function Verify(mac: Mac, lines: seq<string>): VerifyResult {
    if lines == [] then VerifyResult(0, 0, -1, [], 0)
    else
      var before := lines[..|lines| - 1];
      Judge(mac, Verify(mac, before), |lines|, ChainEnd(before), lines[|lines| - 1])
  }

  /** Checks each line against the chain. */
  method VerifyLines(lines: seq<string>, mac: Mac) returns (r: VerifyResult)
    ensures r == Verify(mac, lines)
  {
    r := VerifyResult(0, 0, -1, [], 0);
    var prevHash := "";
    for i := 0 to |lines|
      invariant r == Verify(mac, lines[..i])
      invariant prevHash == ChainEnd(lines[..i])
    {
      assert lines[..i + 1][..i] == lines[..i];
      match SplitEntryAndHash(lines[i])
      case Legacy(_) =>
        r := r.(skipped := r.skipped + 1);
        prevHash := "";
      case Hashed(entryText, recordedHash) =>
        r := r.(total := r.total + 1);
        var expected := mac(prevHash + entryText);
        if expected == recordedHash {
          r := r.(valid := r.valid + 1);
        } else {
          r := r.(tampered := r.tampered + [i + 1]);
          if r.firstTampered == -1 {
            r := r.(firstTampered := i + 1);
          }
        }
        prevHash := recordedHash;
    }
    assert lines[..|lines|] == lines;
  }

  // ---------- The writer ----------

  class AuditFile {
    var content: string

    constructor (content: string)
      ensures this.content == content
    {
      this.content := content;
    }
  }

  /** The content of the file after `entry` was logged by a writer whose chain state is `prev`. */
  function Appended(mac: Mac, content: string, prev: string, entry: string): string {
    content + EntryLine(entry, mac(prev + entry)) + "\n"
  }

  function LastOf(lines: seq<string>): string {
    if lines == [] then "" else lines[|lines| - 1]
  }

  lemma {:induction false} KeepNonEmpty(parts: seq<string>)
    ensures forall i :: 0 <= i < |Keep(parts)| ==> Keep(parts)[i] != ""
  {
    if parts != [] {
      KeepNonEmpty(parts[..|parts| - 1]);
    }
  }

  lemma ChainEndIsLastHash(lines: seq<string>)
    requires forall i :: 0 <= i < |lines| ==> lines[i] != ""
    ensures ChainEnd(lines) == if LastOf(lines) == "" then "" else ExtractHash(LastOf(lines))
  {
  }

  /** The scanning loop: remembers the last non-empty line; fails when a line is too long for the scanner. */
  method LastNonEmptyLine(parts: seq<string>) returns (lastLine: string, failed: bool)
    ensures failed == !Fits(parts)
    ensures !failed ==> lastLine == LastOf(Keep(parts))
  {
    hide DropCR;
    lastLine := "";
    for i := 0 to |parts|
      invariant Fits(parts[..i])
      invariant lastLine == LastOf(Keep(parts[..i]))
    {
      if |parts[i]| > MAX_LINE {
        return "", true;
      }
      PrefixStep(parts, i);
      var line := DropCR(parts[i]);
      if line != "" {
        lastLine := line;
      }
    }
    WholePrefix(parts);
    failed := false;
  }

  method ExtractLastHash(content: string) returns (hash: string, failed: bool)
    ensures failed == ReadLines(content).TooLong?
    ensures !failed ==> hash == ChainEnd(ReadLines(content).lines)
  {
    var parts := Split(content, '\n');
    var lastLine;
    lastLine, failed := LastNonEmptyLine(parts);
    if failed {
      return "", true;
    }
    KeepNonEmpty(parts);
    ChainEndIsLastHash(Keep(parts));
    if lastLine == "" {
      return "", false;
    }
    return ExtractHash(lastLine), false;
  }

  class AuditLogger {
    const file: AuditFile
    const mac: Mac
    var prevHash: string
    var ready: bool

    /** Opens the log and reads the chain state; `ready` is false when the log cannot be scanned. */
    constructor (file: AuditFile, mac: Mac)
      ensures this.file == file && this.mac == mac
      ensures ready == ReadLines(file.content).Lines?
      ensures ready ==> prevHash == ChainEnd(ReadLines(file.content).lines)
    {
      this.file, this.mac := file, mac;
      var hash, failed := ExtractLastHash(file.content);
      prevHash, ready := hash, !failed;
    }

    /** `written` is how much of the line the file system accepts: all of it, or less and an error. */
    method Log(entry: Entry, written: nat) returns (ok: bool)
      modifies this`prevHash, file
      ensures var line := EntryLine(entry.Text(), mac(old(prevHash) + entry.Text())) + "\n";
              && (ok <==> written >= |line|)
              && file.content == old(file.content) + (if ok then line else line[..written])
      ensures ok ==> file.content == Appended(mac, old(file.content), old(prevHash), entry.Text())
      ensures prevHash == if ok then mac(old(prevHash) + entry.Text()) else old(prevHash)
    {
      var entryText := entry.Text();
      var h := mac(prevHash + entryText);
      var line := entryText + HASH_PREFIX + h + "\n";
      assert file.content + line == Appended(mac, file.content, prevHash, entryText);
      if written < |line| {
        file.content := file.content + line[..written];
        return false;
      }
      file.content := file.content + line;
      prevHash := h;
      return true;
    }
  }

  // ---------- Lines of an appended file ----------

  lemma {:induction false} KeepConcat(a: seq<string>, b: seq<string>)
    ensures Keep(a + b) == Keep(a) + Keep(b)
  {
    if b == [] {
      assert a + b == a;
    } else {
      assert (a + b)[..|a + b| - 1] == a + b[..|b| - 1];
      KeepConcat(a, b[..|b| - 1]);
    }
  }

  lemma KeepSnoc(parts: seq<string>, part: string)
    ensures Keep(parts + [part]) == Keep(parts) + (if DropCR(part) != "" then [DropCR(part)] else [])
  {
    assert (parts + [part])[..|parts + [part]| - 1] == parts;
  }

  lemma {:induction false} KeepIsNewlineFree(parts: seq<string>)
    requires forall i :: 0 <= i < |parts| ==> '\n' !in parts[i]
    ensures forall i :: 0 <= i < |Keep(parts)| ==> '\n' !in Keep(parts)[i]
  {
    if parts != [] {
      KeepIsNewlineFree(parts[..|parts| - 1]);
    }
  }

  /** A text appended to a complete file adds the parts of the text. */
  lemma SplitAppended(content: string, text: string)
    requires Complete(content)
    ensures var parts := Split(content, '\n');
            var all := Split(content + text + "\n", '\n');
            parts[|parts| - 1] == "" && all == parts[..|parts| - 1] + Split(text, '\n') + [""]
  {
    SplitEnded(text);
    if content == "" {
      ConcatNil(text);
      ConcatNil(Split(text, '\n'));
    } else {
      var body := content[..|content| - 1];
      SplitEnded(body);
      SplitConcat(body, '\n', text + "\n");
      assert content == body + "\n" && content + text + "\n" == body + "\n" + (text + "\n");
      SnocInit(Split(body, '\n'), "");
      ConcatAssoc(Split(body, '\n'), Split(text, '\n'), [""]);
    }
  }

  lemma ReadAppended(content: string, text: string)
    requires Complete(content) && ReadLines(content).Lines? && Fits(Split(text, '\n'))
    ensures Complete(content + text + "\n")
    ensures ReadLines(content + text + "\n") == Lines(ReadLines(content).lines + Keep(Split(text, '\n')))
  {
    SplitAppended(content, text);
    var parts := Split(content, '\n');
    InitLast(parts);
    ReadParts(content + text + "\n", parts[..|parts| - 1], Split(text, '\n'));
  }

  lemma ReadParts(file: string, front: seq<string>, added: seq<string>)
    requires Split(file, '\n') == front + added + [""] && Fits(front + [""]) && Fits(added)
    ensures ReadLines(file) == Lines(Keep(front + [""]) + Keep(added))
  {
    KeepAppended(front, added);
    FitsConcat(front, added);
  }

  lemma KeepAppended(front: seq<string>, added: seq<string>)
    ensures Keep(front + added + [""]) == Keep(front + [""]) + Keep(added)
  {
    hide Keep;
    KeepSnoc(front, "");
    KeepSnoc(front + added, "");
    KeepConcat(front, added);
  }

  lemma FitsConcat(front: seq<string>, added: seq<string>)
    ensures Fits(front + [""]) && Fits(added) ==> Fits(front + added + [""])
  {
    assert forall i :: 0 <= i < |front| ==> (front + [""])[i] == front[i];
  }

  lemma HexIsNotASuffix(h: string)
    requires HexDigest(h)
    ensures !Contains(h, HASH_PREFIX)
  {
    forall i | 0 <= i <= |h| ensures !OccursAt(h, HASH_PREFIX, i) {
      if i + |HASH_PREFIX| <= |h| {
        assert IsHex(h[i]);
        DiffersAt(h, HASH_PREFIX, i, 0);
      }
    }
  }

  /** The prefix does not overlap itself. */
  lemma NoLaterPrefix(entry: string, hash: string, r: nat)
    requires |entry| < r && !Contains(hash, HASH_PREFIX)
    ensures !OccursAt(EntryLine(entry, hash), HASH_PREFIX, r)
  {
    var line, n := EntryLine(entry, hash), |entry|;
    if r >= n + 8 {
      assert r + 8 <= |line| ==> hash[r - n - 8..r - n] == line[r..r + 8];
      assert OccursAt(line, HASH_PREFIX, r) ==> OccursAt(hash, HASH_PREFIX, r - n - 8);
    } else if r + |HASH_PREFIX| <= |line| {
      DiffersAt(line, HASH_PREFIX, r, if r - n == 2 then 1 else 0);
    }
  }

  /** The verifier recovers exactly the entry and the hash that were joined, whatever the entry contains. */
  lemma SplitEntryLine(entry: string, hash: string)
    requires !Contains(hash, HASH_PREFIX)
    ensures SplitEntryAndHash(EntryLine(entry, hash)) == Hashed(entry, hash)
  {
    var line, n := EntryLine(entry, hash), |entry|;
    assert line[n..n + 8] == HASH_PREFIX;
    assert OccursAt(line, HASH_PREFIX, n);
    forall r | n < r <= |line| ensures !OccursAt(line, HASH_PREFIX, r) {
      NoLaterPrefix(entry, hash, r);
    }
    assert LastIndex(line, HASH_PREFIX) == n;
    assert line[..n] == entry && line[n + 8..] == hash;
  }

  predicate Loggable(entry: string) {
    '\n' !in entry && |entry| + |HASH_PREFIX| + 64 <= MAX_LINE
  }

  predicate AllLoggable(es: seq<string>) {
    forall i :: 0 <= i < |es| ==> Loggable(es[i])
  }

  predicate EachLoggable(batches: seq<seq<string>>) {
    forall i :: 0 <= i < |batches| ==> AllLoggable(batches[i])
  }

  lemma EachLoggableSnoc(batches: seq<seq<string>>)
    ensures EachLoggable(batches)
       <==> batches == [] || (EachLoggable(batches[..|batches| - 1]) && AllLoggable(batches[|batches| - 1]))
  {
  }

  lemma LineIsOnePart(entry: string, h: string)
    requires '\n' !in entry && HexDigest(h)
    ensures var line := EntryLine(entry, h); Split(line, '\n') == [line] && DropCR(line) == line && line != ""
  {
    var line := EntryLine(entry, h);
    assert line[|line| - 1] == h[63] && IsHex(h[63]);
    assert forall i :: 0 <= i < |h| ==> IsHex(h[i]);
    assert '\n' !in h && '\n' !in HASH_PREFIX;
    SplitPlain(line, '\n');
  }

  /** A newline-free entry that fits the scanner becomes exactly one more line. */
  lemma ReadEntry(mac: Mac, content: string, prev: string, entry: string)
    requires HexMac(mac) && Complete(content) && ReadLines(content).Lines? && Loggable(entry)
    ensures var after := Appended(mac, content, prev, entry);
            && Complete(after)
            && ReadLines(after) == Lines(ReadLines(content).lines + [EntryLine(entry, mac(prev + entry))])
  {
    assert HexDigest(mac(prev + entry));
    var line := EntryLine(entry, mac(prev + entry));
    LineIsOnePart(entry, mac(prev + entry));
    KeepSnoc([], line);
    ConcatNil([line]);
    ReadAppended(content, line);
  }

  // ---------- Restart agreement ----------

  /** The hashes of the entries logged by a writer that starts from chain state `prev`. */
  function HashesFrom(mac: Mac, prev: string, es: seq<string>): (hs: seq<string>)
    ensures |hs| == |es|
  {
    if es == [] then [] else
      var hs := HashesFrom(mac, prev, es[..|es| - 1]);
      hs + [mac((if hs == [] then prev else hs[|hs| - 1]) + es[|es| - 1])]
  }

  function LinesOf(es: seq<string>, hs: seq<string>): (lines: seq<string>)
    requires |es| == |hs|
    ensures |lines| == |es|
  {
    if es == [] then []
    else LinesOf(es[..|es| - 1], hs[..|es| - 1]) + [EntryLine(es[|es| - 1], hs[|es| - 1])]
  }

  function EndOf(prev: string, hs: seq<string>): string {
    if hs == [] then prev else hs[|hs| - 1]
  }

  /** What one logger writes. */
  function Session(mac: Mac, content: string, prev: string, es: seq<string>): string {
    if es == [] then content
    else
      var before := es[..|es| - 1];
      Appended(mac, Session(mac, content, prev, before), EndOf(prev, HashesFrom(mac, prev, before)), es[|es| - 1])
  }

  /** Any number of restarts: each session opens the file that the sessions before it left, and logs its
      entries; a session that cannot scan the file writes nothing. */
  function Sessions(mac: Mac, content: string, batches: seq<seq<string>>): string {
    if batches == [] then content
    else
      var before := Sessions(mac, content, batches[..|batches| - 1]);
      match ReadLines(before)
      case TooLong => before
      case Lines(lines) => Session(mac, before, ChainEnd(lines), batches[|batches| - 1])
  }

  lemma {:induction false} HashesAreHex(mac: Mac, prev: string, es: seq<string>)
    requires HexMac(mac)
    ensures forall i :: 0 <= i < |es| ==> HexDigest(HashesFrom(mac, prev, es)[i])
    ensures forall i :: 0 <= i < |es| ==> !Contains(HashesFrom(mac, prev, es)[i], HASH_PREFIX)
  {
    forall i | 0 <= i < |es|
      ensures HexDigest(HashesFrom(mac, prev, es)[i]) && !Contains(HashesFrom(mac, prev, es)[i], HASH_PREFIX)
    {
      HashAt(mac, prev, es, i);
      HexIsNotASuffix(HashesFrom(mac, prev, es)[i]);
    }
  }

  function Before(prev: string, hs: seq<string>, i: nat): string
    requires i <= |hs|
  {
    if i == 0 then prev else hs[i - 1]
  }

  lemma {:induction false} HashAt(mac: Mac, prev: string, es: seq<string>, i: nat)
    requires i < |es|
    ensures var hs := HashesFrom(mac, prev, es); hs[i] == mac(Before(prev, hs, i) + es[i])
  {
    if i < |es| - 1 {
      HashAt(mac, prev, es[..|es| - 1], i);
    }
  }

  lemma {:induction false} HashesConcat(mac: Mac, prev: string, a: seq<string>, b: seq<string>)
    ensures HashesFrom(mac, prev, a + b)
         == HashesFrom(mac, prev, a) + HashesFrom(mac, EndOf(prev, HashesFrom(mac, prev, a)), b)
  {
    if b == [] {
      assert a + b == a;
    } else {
      assert (a + b)[..|a + b| - 1] == a + b[..|b| - 1];
      HashesConcat(mac, prev, a, b[..|b| - 1]);
    }
  }

  lemma {:induction false} ReadSession(mac: Mac, content: string, prev: string, es: seq<string>)
    requires HexMac(mac) && Complete(content) && ReadLines(content).Lines?
    requires AllLoggable(es)
    ensures var after := Session(mac, content, prev, es);
            && Complete(after)
            && ReadLines(after) == Lines(ReadLines(content).lines + LinesOf(es, HashesFrom(mac, prev, es)))
  {
    var lines := ReadLines(content).lines;
    if es == [] {
      assert lines + LinesOf(es, HashesFrom(mac, prev, es)) == lines;
    } else {
      var before := es[..|es| - 1];
      var hs := HashesFrom(mac, prev, before);
      ReadSession(mac, content, prev, before);
      ReadEntry(mac, Session(mac, content, prev, before), EndOf(prev, hs), es[|es| - 1]);
      ConcatAssoc(lines, LinesOf(before, hs), [EntryLine(es[|es| - 1], mac(EndOf(prev, hs) + es[|es| - 1]))]);
    }
  }

  lemma ChainEndSnoc(lines: seq<string>, entry: string, hash: string)
    requires !Contains(hash, HASH_PREFIX)
    ensures ChainEnd(lines + [EntryLine(entry, hash)]) == hash
  {
    SplitEntryLine(entry, hash);
  }

  lemma VerifySnoc(mac: Mac, lines: seq<string>, entry: string, hash: string)
    requires !Contains(hash, HASH_PREFIX)
    ensures var r := Verify(mac, lines);
            var all := Verify(mac, lines + [EntryLine(entry, hash)]);
            if mac(ChainEnd(lines) + entry) == hash then all == r.(total := r.total + 1, valid := r.valid + 1)
            else all == r.(total := r.total + 1, tampered := r.tampered + [|lines| + 1],
                           firstTampered := if r.firstTampered == -1 then |lines| + 1 else r.firstTampered)
  {
    SplitEntryLine(entry, hash);
    VerifyLast(mac, lines, EntryLine(entry, hash));
  }

  lemma VerifyLast(mac: Mac, lines: seq<string>, line: string)
    ensures Verify(mac, lines + [line]) == Judge(mac, Verify(mac, lines), |lines| + 1, ChainEnd(lines), line)
  {
    SnocInit(lines, line);
  }

  lemma ChainEndOf(lines: seq<string>, es: seq<string>, hs: seq<string>)
    requires |es| == |hs| && forall i :: 0 <= i < |hs| ==> !Contains(hs[i], HASH_PREFIX)
    ensures ChainEnd(lines + LinesOf(es, hs)) == EndOf(ChainEnd(lines), hs)
  {
    if es == [] {
      assert lines + LinesOf(es, hs) == lines;
    } else {
      var front := LinesOf(es[..|es| - 1], hs[..|es| - 1]);
      ChainEndSnoc(lines + front, es[|es| - 1], hs[|es| - 1]);
      ConcatAssoc(lines, front, [EntryLine(es[|es| - 1], hs[|es| - 1])]);
    }
  }

  lemma {:induction false} LinesOfConcat(es: seq<string>, hs: seq<string>, es': seq<string>, hs': seq<string>)
    requires |es| == |hs| && |es'| == |hs'|
    ensures LinesOf(es + es', hs + hs') == LinesOf(es, hs) + LinesOf(es', hs')
  {
    if es' == [] {
      assert es + es' == es && hs + hs' == hs;
    } else {
      var n := |es'| - 1;
      LinesOfConcat(es, hs, es'[..n], hs'[..n]);
      assert (es + es')[..|es + es'| - 1] == es + es'[..n] && (hs + hs')[..|es + es'| - 1] == hs + hs'[..n];
    }
  }

  /** `lines` followed by the lines of the entries `es`, chained from the state at the end of `lines`. */
  function Extended(mac: Mac, lines: seq<string>, es: seq<string>): seq<string> {
    lines + LinesOf(es, HashesFrom(mac, ChainEnd(lines), es))
  }

  /** Whatever the file held, the sessions add one line per entry, chained from the state that the verifier
      reaches at the end of the file. */
  lemma {:induction false} ReadSessions(mac: Mac, content: string, batches: seq<seq<string>>)
    requires HexMac(mac) && Complete(content) && ReadLines(content).Lines?
    requires EachLoggable(batches)
    ensures var after := Sessions(mac, content, batches);
            var lines := ReadLines(content).lines;
            var es := Flatten(batches);
            && Complete(after)
            && ReadLines(after) == Lines(Extended(mac, lines, es))
  {
    var lines := ReadLines(content).lines;
    if batches == [] {
      assert lines + LinesOf([], []) == lines;
    } else {
      var front, es := batches[..|batches| - 1], batches[|batches| - 1];
      var before, prev := Flatten(front), ChainEnd(lines);
      var hs := HashesFrom(mac, prev, before);
      ReadSessions(mac, content, front);
      HashesAreHex(mac, prev, before);
      ChainEndOf(lines, before, hs);
      ReadSession(mac, Sessions(mac, content, front), EndOf(prev, hs), es);
      HashesConcat(mac, prev, before, es);
      var hs' := HashesFrom(mac, EndOf(prev, hs), es);
      LinesOfConcat(before, hs, es, hs');
      ConcatAssoc(lines, LinesOf(before, hs), LinesOf(es, hs'));
    }
  }

  /** Lines chained from the state at the end of `lines` all verify, and change nothing before them. */
  lemma {:induction false} ChainedLinesVerify(mac: Mac, lines: seq<string>, es: seq<string>)
    requires HexMac(mac)
    ensures var r := Verify(mac, lines);
            Verify(mac, Extended(mac, lines, es)) == r.(total := r.total + |es|, valid := r.valid + |es|)
  {
    var prev := ChainEnd(lines);
    var hs := HashesFrom(mac, prev, es);
    if es == [] {
      assert lines + LinesOf(es, hs) == lines;
    } else {
      var before := es[..|es| - 1];
      var hs' := HashesFrom(mac, prev, before);
      ChainedLinesVerify(mac, lines, before);
      HashesAreHex(mac, prev, es);
      HashesAreHex(mac, prev, before);
      ChainEndOf(lines, before, hs');
      VerifySnoc(mac, lines + LinesOf(before, hs'), es[|es| - 1], hs[|es| - 1]);
      assert lines + LinesOf(es, hs) == lines + LinesOf(before, hs') + [EntryLine(es[|es| - 1], hs[|es| - 1])];
    }
  }

  lemma SessionsReport(mac: Mac, content: string, batches: seq<seq<string>>)
    requires HexMac(mac) && Complete(content) && ReadLines(content).Lines? && EachLoggable(batches)
    ensures ReadLines(Sessions(mac, content, batches)).Lines?
    ensures var r := Verify(mac, ReadLines(content).lines);
            var n := |Flatten(batches)|;
            Verify(mac, ReadLines(Sessions(mac, content, batches)).lines)
            == r.(total := r.total + n, valid := r.valid + n)
  {
    hide Split, Complete, ReadLines, Sessions, Extended, Verify;
    var lines, es := ReadLines(content).lines, Flatten(batches);
    ReadSessions(mac, content, batches);
    ChainedLinesVerify(mac, lines, es);
  }
}
