/** What an audit log shows to its reader: the fields of an entry, the lines of a file however they are ended, and the
    verdict on each line. */
module AuditReading {
  import opened Text
  import opened AuditLog

  // ---------- Entries ----------

  predicate Plain(s: string) {
    '|' !in s
  }

  predicate PlainFields(e: Entry) {
    && Plain(e.timestamp) && Plain(e.role) && Plain(e.target) && Plain(e.operation) && Plain(e.reason)
    && Plain(e.result)
  }

  /** An entry shows all six fields in their order, each between the bars of its own. */
  lemma FieldsAreShown(e: Entry)
    ensures Split(e.Text(), '|')
         == Split(e.timestamp + " ", '|') + Split(" " + e.role + " ", '|') + Split(" " + e.target + " ", '|')
            + Split(" " + e.operation + " ", '|') + Split(" reason: " + e.reason + " ", '|')
            + Split(" result: " + e.result, '|')
  {
    hide Split;
    var a := e.timestamp;
    var b := a + " | " + e.role;
    var c := b + " | " + e.target;
    var d := c + " | " + e.operation;
    var f := d + " | " + ("reason: " + e.reason);
    NextField(a, e.role);
    NextField(b, e.target);
    NextField(c, e.operation);
    NextField(d, "reason: " + e.reason);
    LastField(f, "result: " + e.result);
    assert " " + ("reason: " + e.reason) == " reason: " + e.reason;
    assert " " + ("result: " + e.result) == " result: " + e.result;
    TextIs(e);
  }

  lemma TextIs(e: Entry)
    ensures e.Text() == e.timestamp + " | " + e.role + " | " + e.target + " | " + e.operation
                        + " | " + ("reason: " + e.reason) + " | " + ("result: " + e.result)
  {
    var s := e.timestamp + " | " + e.role + " | " + e.target + " | " + e.operation;
    Labelled(s, "reason: ", e.reason);
    Labelled(s + " | reason: " + e.reason, "result: ", e.result);
    assert " | " + "reason: " == " | reason: " && " | " + "result: " == " | result: ";
  }

  lemma Labelled(s: string, name: string, field: string)
    ensures s + " | " + (name + field) == s + (" | " + name) + field
  {
  }

  lemma LastField(before: string, field: string)
    ensures Split(before + " | " + field, '|') == Split(before + " ", '|') + Split(" " + field, '|')
  {
    SplitConcat(before + " ", '|', " " + field);
    assert before + " | " + field == before + " " + ['|'] + (" " + field);
  }

  lemma NextField(before: string, field: string)
    ensures Split(before + " | " + field + " ", '|') == Split(before + " ", '|') + Split(" " + field + " ", '|')
  {
    LastField(before, field + " ");
    ConcatAssoc(before + " | ", field, " ");
    ConcatAssoc(" ", field, " ");
  }

  /** Entries without bars in their fields are told apart by their texts. */
  lemma PlainEntriesDiffer(x: Entry, y: Entry)
    requires PlainFields(x) && PlainFields(y) && x != y
    ensures x.Text() != y.Text()
  {
    hide *;
    PlainFieldsAreShown(x);
    PlainFieldsAreShown(y);
    if x.Text() == y.Text() {
      SameFields(x, y);
    }
  }

  function Shown(e: Entry): seq<string> {
    [e.timestamp + " ", " " + e.role + " ", " " + e.target + " ", " " + e.operation + " ",
     " reason: " + e.reason + " ", " result: " + e.result]
  }

  lemma PlainFieldsAreShown(e: Entry)
    requires PlainFields(e)
    ensures Split(e.Text(), '|') == Shown(e)
  {
    hide Split;
    FieldsAreShown(e);
    SplitPlain(e.timestamp + " ", '|');
    SplitPlain(" " + e.role + " ", '|');
    SplitPlain(" " + e.target + " ", '|');
    SplitPlain(" " + e.operation + " ", '|');
    SplitPlain(" reason: " + e.reason + " ", '|');
    SplitPlain(" result: " + e.result, '|');
  }

  lemma SameFields(x: Entry, y: Entry)
    requires Shown(x) == Shown(y)
    ensures x == y
  {
    var s, t := Shown(x), Shown(y);
    assert forall i :: 0 <= i < 6 ==> s[i] == t[i];
    assert x.timestamp == s[0][..|s[0]| - 1] && x.role == s[1][1..|s[1]| - 1] && x.target == s[2][1..|s[2]| - 1];
    assert y.timestamp == t[0][..|t[0]| - 1] && y.role == t[1][1..|t[1]| - 1] && y.target == t[2][1..|t[2]| - 1];
    assert x.operation == s[3][1..|s[3]| - 1] && x.reason == s[4][9..|s[4]| - 1] && x.result == s[5][9..];
    assert y.operation == t[3][1..|t[3]| - 1] && y.reason == t[4][9..|t[4]| - 1] && y.result == t[5][9..];
  }

  /** With a bar in a field two entries may have one text, and so one hash. */
  lemma BarsAreAmbiguous(timestamp: string, operation: string, reason: string, result: string)
    ensures var x := Entry(timestamp, "drone | db", "cpu", operation, reason, result);
            var y := Entry(timestamp, "drone", "db | cpu", operation, reason, result);
            x != y && x.Text() == y.Text()
  {
    assert " | " + "drone | db" + " | " + "cpu" == " | " + "drone" + " | " + "db | cpu";
    assert "drone | db" != "drone";
  }

  // ---------- Lines ----------

  /** A line as it stands in a file, ended by a line feed alone or after a carriage return. */
  datatype Ended = Ended(line: string, crlf: bool)
  {
    function Part(): string {
      if crlf then line + "\r" else line
    }
  }

  function Content(ls: seq<Ended>): string {
    if ls == [] then "" else Content(ls[..|ls| - 1]) + ls[|ls| - 1].Part() + "\n"
  }

  function NonEmpty(ls: seq<Ended>): seq<string> {
    if ls == [] then []
    else NonEmpty(ls[..|ls| - 1]) + (if ls[|ls| - 1].line != "" then [ls[|ls| - 1].line] else [])
  }

  predicate OneLine(line: string) {
    '\n' !in line && (line != "" ==> line[|line| - 1] != '\r')
  }

  predicate OneLineEach(ls: seq<Ended>) {
    forall i :: 0 <= i < |ls| ==> OneLine(ls[i].line)
  }

  function Parts(ls: seq<Ended>): seq<string> {
    if ls == [] then [] else Parts(ls[..|ls| - 1]) + [ls[|ls| - 1].Part()]
  }

  lemma {:induction false} PartsAt(ls: seq<Ended>)
    ensures |Parts(ls)| == |ls| && forall i :: 0 <= i < |ls| ==> Parts(ls)[i] == ls[i].Part()
  {
    if ls != [] {
      PartsAt(ls[..|ls| - 1]);
    }
  }

  lemma {:induction false} ContentSplits(ls: seq<Ended>, last: string)
    requires OneLineEach(ls) && '\n' !in last
    ensures Split(Content(ls) + last, '\n') == Parts(ls) + [last]
  {
    hide Split;
    if ls == [] {
      ConcatNil(last);
      ConcatNil([last]);
      SplitPlain(last, '\n');
    } else {
      var before, e := ls[..|ls| - 1], ls[|ls| - 1];
      ContentSplits(before, e.Part());
      SplitConcat(Content(before) + e.Part(), '\n', last);
      SplitPlain(last, '\n');
    }
  }

  lemma {:induction false} KeepParts(ls: seq<Ended>)
    requires OneLineEach(ls)
    ensures Keep(Parts(ls)) == NonEmpty(ls)
  {
    if ls != [] {
      var before, e := ls[..|ls| - 1], ls[|ls| - 1];
      KeepParts(before);
      KeepSnoc(Parts(before), e.Part());
    }
  }

  predicate LinesFit(ls: seq<Ended>, last: string) {
    |last| <= MAX_LINE && forall i :: 0 <= i < |ls| ==> |ls[i].Part()| <= MAX_LINE
  }

  /** What both readers see of a file: its non-empty lines in their order, whichever way each is ended and even if the
      last one is not; nothing at all if one of them, with its carriage return, is too long. */
  lemma FileIsRead(ls: seq<Ended>, last: string)
    requires OneLineEach(ls) && OneLine(last)
    ensures ReadLines(Content(ls) + last)
         == if LinesFit(ls, last) then Lines(NonEmpty(ls) + (if last != "" then [last] else [])) else TooLong
  {
    hide Split, Keep;
    ContentSplits(ls, last);
    PartsAt(ls);
    KeepSnoc(Parts(ls), last);
    KeepParts(ls);
    var parts := Parts(ls) + [last];
    assert parts[|ls|] == last && forall i :: 0 <= i < |ls| ==> parts[i] == Parts(ls)[i];
  }

  // ---------- Verdicts ----------

  /** The hash that the line before line n + 1 records; none for the first line. */
  function Recorded(lines: seq<string>, n: nat): string
    requires n <= |lines|
  {
    if n == 0 then "" else ExtractHash(lines[n - 1])
  }

  /** Line n + 1 has a hash that is not the one of the hash recorded before it and its entry. */
  predicate Broken(mac: Mac, lines: seq<string>, n: nat)
    requires n < |lines|
  {
    var idx := LastIndex(lines[n], HASH_PREFIX);
    idx >= 0 && mac(Recorded(lines, n) + lines[n][..idx]) != ExtractHash(lines[n])
  }

  function BrokenLines(mac: Mac, lines: seq<string>, n: nat): seq<int>
    requires n <= |lines|
  {
    if n == 0 then [] else
      BrokenLines(mac, lines, n - 1) + (if Broken(mac, lines, n - 1) then [n] else [])
  }

  /** The report lists exactly the broken lines by number, in order, and names the first of them. */
  lemma {:induction false} ReportListsBroken(mac: Mac, lines: seq<string>, n: nat)
    requires n <= |lines|
    ensures var r := Verify(mac, lines[..n]);
            && r.tampered == BrokenLines(mac, lines, n)
            && (r.tampered != [] ==> r.tampered[0] >= 1)
            && r.firstTampered == if r.tampered == [] then -1 else r.tampered[0]
  {
    hide Verify, ChainEnd, SplitEntryAndHash, ExtractHash, LastIndex, Judge, Broken;
    if n == 0 {
      NothingReported(mac);
    } else {
      ReportListsBroken(mac, lines, n - 1);
      ReportStep(mac, lines, n - 1);
    }
  }

  lemma NothingReported(mac: Mac)
    ensures Verify(mac, []) == VerifyResult(0, 0, -1, [], 0)
  {
  }

  lemma ReportStep(mac: Mac, lines: seq<string>, n: nat)
    requires n < |lines|
    ensures var r, s := Verify(mac, lines[..n]), Verify(mac, lines[..n + 1]);
            && s.tampered == r.tampered + (if Broken(mac, lines, n) then [n + 1] else [])
            && s.firstTampered == if Broken(mac, lines, n) && r.firstTampered == -1 then n + 1 else r.firstTampered
  {
    PrefixStep(lines, n);
    RecordedIsChainEnd(lines, n);
    ConcatNil(Verify(mac, lines[..n]).tampered);
  }

  lemma RecordedIsChainEnd(lines: seq<string>, n: nat)
    requires n <= |lines|
    ensures ChainEnd(lines[..n]) == Recorded(lines, n)
  {
  }
}
