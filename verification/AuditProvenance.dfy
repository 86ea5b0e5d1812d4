/** Which lists of lines the verifier accepts when their hashes were taken from a log: what somebody without the
    key can make of it by deleting, reordering, repeating and inserting lines. */
module AuditProvenance {
  import opened Text
  import opened AuditLog
  import opened AuditVerdicts
  import opened AuditTamper

  // ---------- Exactly which lines verify ----------

  /** Every line has no hash, or one that the log contains. */
  predicate FromLog(mac: Mac, es: seq<string>, lines: seq<string>) {
    forall k :: 0 <= k < |lines| ==>
      match SplitEntryAndHash(lines[k])
      case Legacy(_) => true
      case Hashed(_, h) => h in Hashes(mac, es)
  }

  /** The pair of an entry and a hash is line j + 1 of the log, met in chain state `state`: below the hash before
      it, or where no chain is under way and the entry carries that hash in its text. */
  predicate IsLogLine(mac: Mac, es: seq<string>, state: string, e: string, h: string, j: int) {
    && 0 <= j < |es| && h == Hashes(mac, es)[j]
    && (if state == "" then e == Before("", Hashes(mac, es), j) + es[j]
        else j > 0 && state == Hashes(mac, es)[j - 1] && e == es[j])
  }

  ghost predicate Follows(mac: Mac, es: seq<string>, state: string, line: string) {
    match SplitEntryAndHash(line)
    case Legacy(_) => true
    case Hashed(e, h) => exists j :: IsLogLine(mac, es, state, e, h, j)
  }

  predicate EachDashed(es: seq<string>) {
    forall k :: 0 <= k < |es| ==> Dashed(es[k])
  }

  lemma HexIsNotDashed(h: string, e: string, d: string)
    requires HexDigest(h) && Dashed(d)
    ensures h + e != d
  {
    assert (h + e)[4] == h[4] && IsHex(h[4]);
  }

  /** Equal messages, one of them below a recorded hash of the log, are the same entry below the same hash. */
  lemma SameMessage(mac: Mac, es: seq<string>, j: nat, h: string, e: string)
    requires HexMac(mac) && j < |es| && HexDigest(h) && Dashed(es[j])
    requires h + e == Before("", Hashes(mac, es), j) + es[j]
    ensures j > 0 && h == Hashes(mac, es)[j - 1] && e == es[j]
  {
    HashesAreHex(mac, "", es);
    HexIsNotDashed(h, e, es[j]);
    ConcatNil(es[j]);
    var g := Hashes(mac, es)[j - 1];
    assert (h + e)[..64] == h && (g + es[j])[..64] == g;
    assert (h + e)[64..] == e && (g + es[j])[64..] == es[j];
  }

  /** A pair with a hash of the log matches if and only if it is a line of the log. */
  lemma MatchesIffLogLine(mac: Mac, es: seq<string>, state: string, e: string, h: string)
    requires HexMac(mac) && EachDashed(es) && h in Hashes(mac, es) && (state == "" || state in Hashes(mac, es))
    requires CollisionFree(mac, Written(mac, es) + {state + e})
    ensures mac(state + e) == h <==> exists j :: IsLogLine(mac, es, state, e, h, j)
  {
    hide HashesFrom, HexDigest, Dashed;
    var hs := Hashes(mac, es);
    HashesAreHex(mac, "", es);
    forall j | IsLogLine(mac, es, state, e, h, j) ensures mac(state + e) == h {
      HashAt(mac, "", es, j);
      ConcatNil(e);
    }
    if mac(state + e) == h {
      var j: nat :| j < |hs| && hs[j] == h;
      HashAt(mac, "", es, j);
      assert Before("", hs, j) + es[j] in Written(mac, es);
      ConcatNil(e);
      if state != "" {
        SameMessage(mac, es, j, state, e);
      }
      assert IsLogLine(mac, es, state, e, h, j);
    }
  }

  lemma ValidStep(mac: Mac, lines: seq<string>)
    requires lines != []
    ensures var n := |lines| - 1;
            Verify(mac, lines).IsValid()
            <==> Verify(mac, lines[..n]).IsValid()
                 && match SplitEntryAndHash(lines[n])
                    case Legacy(_) => true
                    case Hashed(e, h) => mac(ChainEnd(lines[..n]) + e) == h
  {
    hide SplitEntryAndHash, ChainEnd;
  }

  lemma StateFromLog(mac: Mac, es: seq<string>, lines: seq<string>)
    requires FromLog(mac, es, lines)
    ensures ChainEnd(lines) == "" || ChainEnd(lines) in Hashes(mac, es)
  {
    hide Hashes, SplitEntryAndHash;
    if lines != [] {
      assert match SplitEntryAndHash(lines[|lines| - 1])
             case Legacy(_) => true
             case Hashed(_, h) => h in Hashes(mac, es);
    }
  }

  /** Exactly which lines verify, among all that have no hash or a hash of the log: each line with a hash is a line
      of the log, directly behind the line that precedes it there; behind a line without a hash, and at the
      beginning, any line of the log may stand if its entry is preceded by the hash before it. */
  lemma {:induction false} ValidIffFollows(mac: Mac, es: seq<string>, lines: seq<string>)
    requires HexMac(mac) && EachDashed(es) && FromLog(mac, es, lines)
    requires CollisionFree(mac, Written(mac, es) + Messages(lines))
    ensures Verify(mac, lines).IsValid()
       <==> forall k :: 0 <= k < |lines| ==> Follows(mac, es, ChainEnd(lines[..k]), lines[k])
  {
    hide HexMac, EachDashed, Hashes, Written, Verify, ChainEnd, SplitEntryAndHash, IsLogLine;
    if lines == [] {
      assert Verify(mac, lines).IsValid() by {
        VerifyNothing(mac);
      }
    } else {
      var n := |lines| - 1;
      forall k | 0 <= k < n ensures lines[..n][..k] == lines[..k] && lines[..n][k] == lines[k] {
      }
      LastMessage(lines);
      FromLogFront(mac, es, lines);
      ValidIffFollows(mac, es, lines[..n]);
      ValidStep(mac, lines);
      LastFollows(mac, es, lines);
    }
  }

  lemma FromLogFront(mac: Mac, es: seq<string>, lines: seq<string>)
    requires lines != [] && FromLog(mac, es, lines)
    ensures FromLog(mac, es, lines[..|lines| - 1])
  {
    hide Hashes, SplitEntryAndHash;
  }

  lemma LastMessage(lines: seq<string>)
    requires lines != []
    ensures Messages(lines[..|lines| - 1]) <= Messages(lines)
    ensures SplitEntryAndHash(lines[|lines| - 1]).Hashed? ==>
              ChainEnd(lines[..|lines| - 1]) + SplitEntryAndHash(lines[|lines| - 1]).entry in Messages(lines)
  {
    hide SplitEntryAndHash, ChainEnd;
  }

  lemma LastFollows(mac: Mac, es: seq<string>, lines: seq<string>)
    requires HexMac(mac) && EachDashed(es) && lines != [] && FromLog(mac, es, lines)
    requires CollisionFree(mac, Written(mac, es) + Messages(lines))
    ensures var n := |lines| - 1;
            Follows(mac, es, ChainEnd(lines[..n]), lines[n])
            <==> match SplitEntryAndHash(lines[n])
                 case Legacy(_) => true
                 case Hashed(e, h) => mac(ChainEnd(lines[..n]) + e) == h
  {
    hide HexMac, EachDashed, Hashes, Written, ChainEnd, SplitEntryAndHash, IsLogLine, Messages;
    var n := |lines| - 1;
    FromLogFront(mac, es, lines);
    StateFromLog(mac, es, lines[..n]);
    LastMessage(lines);
    match SplitEntryAndHash(lines[n])
    case Legacy(_) =>
    case Hashed(e, h) => MatchesIffLogLine(mac, es, ChainEnd(lines[..n]), e, h);
  }

  // ---------- Lines that all have a hash ----------

  predicate AllHashed(lines: seq<string>) {
    forall k :: 0 <= k < |lines| ==> SplitEntryAndHash(lines[k]).Hashed?
  }

  /** n lines of the log from line j + 1 on, the first with the hash before it in its text. */
  function Window(mac: Mac, es: seq<string>, j: nat, n: nat): seq<string>
    requires 0 < n && j + n <= |es|
  {
    var hs := Hashes(mac, es);
    [EntryLine(Before("", hs, j) + es[j], hs[j])] + LinesOf(es, hs)[j + 1..j + n]
  }

  /** A line with a hash is determined by its entry and its hash. */
  lemma LineOfParts(line: string)
    requires SplitEntryAndHash(line).Hashed?
    ensures var Hashed(e, h) := SplitEntryAndHash(line); line == EntryLine(e, h)
  {
    var i := LastIndex(line, HASH_PREFIX);
    assert line == line[..i] + line[i..i + 8] + line[i + 8..];
  }

  lemma HashFacts(mac: Mac, es: seq<string>, i: nat)
    requires HexMac(mac) && i < |es|
    ensures var hs := Hashes(mac, es);
            && HexDigest(hs[i]) && hs[i] != "" && !Contains(hs[i], HASH_PREFIX)
            && hs[i] == mac(Before("", hs, i) + es[i])
  {
    hide HashesFrom, Contains;
    HashesAreHex(mac, "", es);
    HashAt(mac, "", es, i);
  }

  /** Distinct hashes fix the place in the log. */
  lemma SamePlace(mac: Mac, es: seq<string>, i: nat, j: nat)
    requires HexMac(mac) && EachDashed(es) && CollisionFree(mac, Written(mac, es))
    requires i < |es| && j < |es| && Hashes(mac, es)[i] == Hashes(mac, es)[j]
    ensures i == j
  {
    hide HashesFrom, Hashes, Written;
    if i < j {
      HashesDistinct(mac, es, i, j);
    } else if j < i {
      HashesDistinct(mac, es, j, i);
    }
  }

  lemma WindowEnd(mac: Mac, es: seq<string>, j: nat, n: nat)
    requires HexMac(mac) && 0 < n && j + n <= |es|
    ensures ChainEnd(Window(mac, es, j, n)) == Hashes(mac, es)[j + n - 1]
  {
    hide Hashes, HexMac, LinesOf, EntryLine, Contains, ChainEnd, Window;
    var hs := Hashes(mac, es);
    HashFacts(mac, es, j + n - 1);
    if n == 1 {
      WindowOne(mac, es, j);
      ChainEndSnoc([], Before("", hs, j) + es[j], hs[j]);
    } else {
      WindowSnoc(mac, es, j, n - 1);
      ChainEndSnoc(Window(mac, es, j, n - 1), es[j + n - 1], hs[j + n - 1]);
    }
  }

  lemma WindowSnoc(mac: Mac, es: seq<string>, j: nat, n: nat)
    requires 0 < n && j + n < |es|
    ensures Window(mac, es, j, n + 1) == Window(mac, es, j, n) + [EntryLine(es[j + n], Hashes(mac, es)[j + n])]
  {
    hide Hashes, LinesOf, EntryLine;
    var hs := Hashes(mac, es);
    LinesOfAt(es, hs, j + n);
    var log := LinesOf(es, hs);
    assert log[j + 1..j + n + 1] == log[j + 1..j + n] + [log[j + n]];
    ConcatAssoc([EntryLine(Before("", hs, j) + es[j], hs[j])], log[j + 1..j + n], [log[j + n]]);
  }

  /** Every line of the window verifies. */
  lemma {:induction false} WindowVerifies(mac: Mac, es: seq<string>, j: nat, n: nat)
    requires HexMac(mac) && 0 < n && j + n <= |es|
    ensures Verify(mac, Window(mac, es, j, n)).IsValid()
  {
    hide Hashes, HexMac, LinesOf, EntryLine, Contains, ChainEnd, Verify, Window;
    var hs := Hashes(mac, es);
    HashFacts(mac, es, j + n - 1);
    if n == 1 {
      WindowOne(mac, es, j);
      VerifyNothing(mac);
      ConcatNil(Before("", hs, j) + es[j]);
      VerifySnoc(mac, [], Before("", hs, j) + es[j], hs[j]);
    } else {
      WindowVerifies(mac, es, j, n - 1);
      WindowSnoc(mac, es, j, n - 1);
      WindowEnd(mac, es, j, n - 1);
      VerifySnoc(mac, Window(mac, es, j, n - 1), es[j + n - 1], hs[j + n - 1]);
    }
  }

  lemma WindowOne(mac: Mac, es: seq<string>, j: nat)
    requires j < |es|
    ensures var hs := Hashes(mac, es);
            Window(mac, es, j, 1) == [] + [EntryLine(Before("", hs, j) + es[j], hs[j])]
  {
  }

  lemma {:induction false} FollowsIsWindow(mac: Mac, es: seq<string>, lines: seq<string>) returns (j: nat)
    requires HexMac(mac) && EachDashed(es) && CollisionFree(mac, Written(mac, es))
    requires lines != [] && AllHashed(lines)
    requires forall k :: 0 <= k < |lines| ==> Follows(mac, es, ChainEnd(lines[..k]), lines[k])
    ensures j + |lines| <= |es| && lines == Window(mac, es, j, |lines|)
  {
    hide HexMac, EachDashed, Hashes, HashesFrom, Written, ChainEnd, SplitEntryAndHash, EntryLine, LinesOf, Window;
    var n := |lines| - 1;
    var front, state := lines[..n], ChainEnd(lines[..n]);
    var Hashed(e, h) := SplitEntryAndHash(lines[n]);
    assert Follows(mac, es, state, lines[n]);
    var i :| IsLogLine(mac, es, state, e, h, i);
    LineOfParts(lines[n]);
    InitLast(lines);
    if n == 0 {
      assert state == "" by {
        VerifyNothing(mac);
      }
      j := i;
      WindowOne(mac, es, j);
    } else {
      forall k | 0 <= k < n ensures Follows(mac, es, ChainEnd(front[..k]), front[k]) {
        assert front[..k] == lines[..k] && front[k] == lines[k];
      }
      j := FollowsIsWindow(mac, es, front);
      WindowEnd(mac, es, j, n);
      HashFacts(mac, es, j + n - 1);
      SamePlace(mac, es, i - 1, j + n - 1);
      WindowSnoc(mac, es, j, n);
    }
  }

  /** If all lines have a hash, they verify if and only if they are consecutive lines of the log, the first with the
      hash before it in its text. */
  lemma WindowVerifiesIff(mac: Mac, es: seq<string>, lines: seq<string>)
    requires HexMac(mac) && EachDashed(es) && lines != [] && AllHashed(lines) && FromLog(mac, es, lines)
    requires CollisionFree(mac, Written(mac, es) + Messages(lines))
    ensures Verify(mac, lines).IsValid()
       <==> exists j :: 0 <= j <= |es| - |lines| && lines == Window(mac, es, j, |lines|)
  {
    hide HexMac, EachDashed, Hashes, Written, Messages, Verify, Window, AllHashed, FromLog, Follows;
    ValidIffFollows(mac, es, lines);
    if Verify(mac, lines).IsValid() {
      var j := FollowsIsWindow(mac, es, lines);
    }
    if j :| 0 <= j <= |es| - |lines| && lines == Window(mac, es, j, |lines|) {
      WindowVerifies(mac, es, j, |lines|);
    }
  }

  predicate StartsDashed(lines: seq<string>) {
    lines != [] && SplitEntryAndHash(lines[0]).Hashed? ==> Dashed(SplitEntryAndHash(lines[0]).entry)
  }

  /** If all lines have a hash and the first starts with a timestamp, as every entry does, they verify if and only
      if they are a beginning of the log: deleted, reordered, repeated and inserted lines are then detected. */
  lemma PrefixVerifiesIff(mac: Mac, es: seq<string>, lines: seq<string>)
    requires HexMac(mac) && EachDashed(es) && AllHashed(lines) && StartsDashed(lines) && FromLog(mac, es, lines)
    requires CollisionFree(mac, Written(mac, es) + Messages(lines))
    ensures Verify(mac, lines).IsValid()
       <==> |lines| <= |es| && lines == LinesOf(es, Hashes(mac, es))[..|lines|]
  {
    hide HexMac, EachDashed, Hashes, HashesFrom, Written, Messages, Verify, Window, AllHashed, FromLog, LinesOf;
    if lines == [] {
      VerifyNothing(mac);
    } else {
      WindowVerifiesIff(mac, es, lines);
      if j :| 0 <= j <= |es| - |lines| && lines == Window(mac, es, j, |lines|) {
        DashedWindowIsFirst(mac, es, j, |lines|);
      }
      if |lines| <= |es| && lines == LinesOf(es, Hashes(mac, es))[..|lines|] {
        FirstWindow(mac, es, |lines|);
      }
    }
  }

  lemma FirstWindow(mac: Mac, es: seq<string>, n: nat)
    requires 0 < n <= |es|
    ensures Window(mac, es, 0, n) == LinesOf(es, Hashes(mac, es))[..n]
  {
    hide Hashes, LinesOf, EntryLine;
    LinesOfAt(es, Hashes(mac, es), 0);
    ConcatNil(es[0]);
    HeadApart(LinesOf(es, Hashes(mac, es)), n);
  }

  lemma HeadApart<T>(s: seq<T>, n: nat)
    requires 0 < n <= |s|
    ensures s[..n] == [s[0]] + s[1..n]
  {
  }

  lemma WindowHead(mac: Mac, es: seq<string>, j: nat, n: nat)
    requires 0 < n && j + n <= |es|
    ensures var hs := Hashes(mac, es);
            Window(mac, es, j, n) != [] && Window(mac, es, j, n)[0] == EntryLine(Before("", hs, j) + es[j], hs[j])
  {
  }

  lemma DashedWindowIsFirst(mac: Mac, es: seq<string>, j: nat, n: nat)
    requires HexMac(mac) && 0 < n && j + n <= |es| && StartsDashed(Window(mac, es, j, n))
    ensures j == 0 && Window(mac, es, j, n) == LinesOf(es, Hashes(mac, es))[..n]
  {
    hide Hashes, HexMac, LinesOf, EntryLine, Contains, SplitEntryAndHash, Dashed, HexDigest, Window;
    var hs := Hashes(mac, es);
    WindowHead(mac, es, j, n);
    HashFacts(mac, es, j);
    SplitEntryLine(Before("", hs, j) + es[j], hs[j]);
    if j > 0 {
      HashFacts(mac, es, j - 1);
      HexIsNotDashed(hs[j - 1], es[j], hs[j - 1] + es[j]);
    } else {
      FirstWindow(mac, es, n);
    }
  }

  // ---------- An undetected change ----------

  /** The first i lines of the log, a line without a hash, and the lines from j + 1 on, of which the first carries
      the hash before it in its text. */
  function Spliced(mac: Mac, es: seq<string>, i: nat, j: nat, plain: string): seq<string>
    requires i <= j < |es| && 0 < j
  {
    var hs := Hashes(mac, es);
    SpliceHead(mac, es, i, j, plain) + LinesOf(es[j + 1..], hs[j + 1..])
  }

  function SpliceHead(mac: Mac, es: seq<string>, i: nat, j: nat, plain: string): seq<string>
    requires i <= j < |es| && 0 < j
  {
    var hs := Hashes(mac, es);
    LinesOf(es[..i], hs[..i]) + [plain] + [EntryLine(hs[j - 1] + es[j], hs[j])]
  }

  /** Both runs of untouched lines are lines of the log as they were. */
  lemma SplicedLines(mac: Mac, es: seq<string>, i: nat, j: nat, plain: string)
    requires i <= j < |es| && 0 < j
    ensures var hs := Hashes(mac, es);
            var log := LinesOf(es, hs);
            Spliced(mac, es, i, j, plain) == log[..i] + [plain] + [EntryLine(hs[j - 1] + es[j], hs[j])] + log[j + 1..]
  {
    hide LinesOf, Hashes, EntryLine;
    FrontAndBack(es, Hashes(mac, es), i, j + 1);
  }

  /** Two lines suffice to hide a deletion from the middle of a log: one without a hash, which the verifier skips and
      after which it starts a new chain, and the line at the far side of the gap with the hash before it moved into
      its text.  Nothing is flagged. */
  lemma SpliceVerifies(mac: Mac, es: seq<string>, i: nat, j: nat, plain: string)
    requires HexMac(mac) && i <= j < |es| && 0 < j && !Contains(plain, HASH_PREFIX)
    ensures var r := Verify(mac, Spliced(mac, es, i, j, plain));
            && r.IsValid() && r.tampered == [] && r.skipped == 1
            && r.total == r.valid == i + (|es| - j)
  {
    hide Hashes, HexMac, LinesOf, Contains, ChainEnd, Verify, SpliceHead;
    UpToSplice(mac, es, i, j, plain);
    RestVerifies(mac, es, j + 1, SpliceHead(mac, es, i, j, plain));
  }

  lemma UpToSplice(mac: Mac, es: seq<string>, i: nat, j: nat, plain: string)
    requires HexMac(mac) && i <= j < |es| && 0 < j && !Contains(plain, HASH_PREFIX)
    ensures var before := SpliceHead(mac, es, i, j, plain);
            && Verify(mac, before) == VerifyResult(i + 1, i + 1, -1, [], 1)
            && ChainEnd(before) == Hashes(mac, es)[j]
  {
    hide Hashes, HexMac, LinesOf, EntryLine, Contains, ChainEnd, Verify;
    var hs := Hashes(mac, es);
    var front, e := LinesOf(es[..i], hs[..i]), hs[j - 1] + es[j];
    FrontVerifies(mac, es, i);
    VerifyPlain(mac, front, plain);
    HashFacts(mac, es, j);
    ConcatNil(e);
    VerifySnoc(mac, front + [plain], e, hs[j]);
    ChainEndSnoc(front + [plain], e, hs[j]);
  }

  lemma FrontAndBack(es: seq<string>, hs: seq<string>, i: nat, j: nat)
    requires i <= |es| == |hs| && j <= |es|
    ensures LinesOf(es, hs)[..i] == LinesOf(es[..i], hs[..i]) && LinesOf(es, hs)[j..] == LinesOf(es[j..], hs[j..])
  {
    hide LinesOf;
    LinesOfSplit(es, hs, i);
    LinesOfSplit(es, hs, j);
  }

  lemma VerifyPlain(mac: Mac, lines: seq<string>, plain: string)
    requires !Contains(plain, HASH_PREFIX)
    ensures Verify(mac, lines + [plain]) == Verify(mac, lines).(skipped := Verify(mac, lines).skipped + 1)
    ensures ChainEnd(lines + [plain]) == ""
  {
    hide SplitEntryAndHash, Verify;
    HashedIff(plain);
    VerifyLast(mac, lines, plain);
  }

  // ---------- The entries that a logger writes ----------

  function Texts(entries: seq<Entry>): (es: seq<string>)
    ensures |es| == |entries| && forall i :: 0 <= i < |es| ==> es[i] == entries[i].Text()
  {
    seq(|entries|, i requires 0 <= i < |entries| => entries[i].Text())
  }

  function BatchTexts(batches: seq<seq<Entry>>): (ts: seq<seq<string>>)
    ensures |ts| == |batches| && forall i :: 0 <= i < |ts| ==> ts[i] == Texts(batches[i])
  {
    seq(|batches|, i requires 0 <= i < |batches| => Texts(batches[i]))
  }

  predicate Writable(e: Entry) {
    e.Stamped() && Loggable(e.Text())
  }

  lemma {:induction false} FlattenIsDashed(batches: seq<seq<string>>)
    requires forall i, k :: 0 <= i < |batches| && 0 <= k < |batches[i]| ==> Dashed(batches[i][k])
    ensures forall k :: 0 <= k < |Flatten(batches)| ==> Dashed(Flatten(batches)[k])
  {
    hide Dashed;
    if batches != [] {
      FlattenIsDashed(batches[..|batches| - 1]);
    }
  }

  /** A log that any number of loggers wrote, entry by entry, has the form that the theorems above speak of. */
  lemma LogOfEntries(mac: Mac, batches: seq<seq<Entry>>)
    requires HexMac(mac)
    requires forall i, k :: 0 <= i < |batches| && 0 <= k < |batches[i]| ==> Writable(batches[i][k])
    ensures var es := Flatten(BatchTexts(batches));
            && ReadLines(Sessions(mac, "", BatchTexts(batches))) == Lines(LinesOf(es, Hashes(mac, es)))
            && forall k :: 0 <= k < |es| ==> Dashed(es[k])
  {
    hide ReadLines, Sessions, Flatten, LinesOf, HashesFrom, Dashed, Loggable;
    var ts := BatchTexts(batches);
    forall i, k | 0 <= i < |ts| && 0 <= k < |ts[i]| ensures Dashed(ts[i][k]) && Loggable(ts[i][k]) {
      EntriesAreDashed(batches[i][k]);
    }
    FlattenIsDashed(ts);
    WrittenLog(mac, ts);
  }

  /** What the verifier accepts of such a log after any change to its lines that takes every hash from it, and that
      this is a beginning of the file if all lines have a hash and the first starts with a timestamp. */
  lemma LogIsProtected(mac: Mac, batches: seq<seq<Entry>>, lines: seq<string>)
    requires HexMac(mac)
    requires forall i, k :: 0 <= i < |batches| && 0 <= k < |batches[i]| ==> Writable(batches[i][k])
    requires var es := Flatten(BatchTexts(batches));
             FromLog(mac, es, lines) && CollisionFree(mac, Written(mac, es) + Messages(lines))
    ensures var es := Flatten(BatchTexts(batches));
            var file := ReadLines(Sessions(mac, "", BatchTexts(batches)));
            var valid := Verify(mac, lines).IsValid();
            && file.Lines?
            && (valid <==> forall k :: 0 <= k < |lines| ==> Follows(mac, es, ChainEnd(lines[..k]), lines[k]))
            && (AllHashed(lines) && StartsDashed(lines) ==>
                  (valid <==> |lines| <= |file.lines| && lines == file.lines[..|lines|]))
  {
    hide ReadLines, Sessions, Flatten, LinesOf, Hashes, Verify, Dashed, Written, Messages, Follows, ChainEnd,
         AllHashed, StartsDashed, FromLog, HexMac;
    var es := Flatten(BatchTexts(batches));
    LogOfEntries(mac, batches);
    ValidIffFollows(mac, es, lines);
    if AllHashed(lines) && StartsDashed(lines) {
      PrefixVerifiesIff(mac, es, lines);
    }
  }
}
