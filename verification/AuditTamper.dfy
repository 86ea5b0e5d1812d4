/** What the verifier reports when somebody changes the lines of a log that was written by any number of
    sessions. */
module AuditTamper {
  import opened Text
  import opened AuditLog
  import opened AuditVerdicts

  // ---------- Verification, pair by pair ----------

  predicate Mismatch(mac: Mac, es: seq<string>, hs: seq<string>, i: nat)
    requires i < |es| == |hs|
  {
    mac(Before("", hs, i) + es[i]) != hs[i]
  }

  /** The 1-based numbers of the pairs that mismatch. */
  function Flagged(mac: Mac, es: seq<string>, hs: seq<string>): (ids: seq<int>)
    requires |es| == |hs|
    ensures |ids| <= |es| && forall i :: 0 <= i < |ids| ==> 1 <= ids[i]
  {
    if es == [] then [] else
      var n := |es| - 1;
      var front := Flagged(mac, es[..n], hs[..n]);
      if Mismatch(mac, es, hs, n) then front + [n + 1] else front
  }

  function Report(n: nat, flagged: seq<int>): VerifyResult
    requires |flagged| <= n
  {
    VerifyResult(n, n - |flagged|, if flagged == [] then -1 else flagged[0], flagged, 0)
  }

  lemma ChainOfPairs(es: seq<string>, hs: seq<string>, n: nat)
    requires n <= |es| == |hs| && forall i :: 0 <= i < n ==> !Contains(hs[i], HASH_PREFIX)
    ensures ChainEnd(LinesOf(es[..n], hs[..n])) == Before("", hs, n)
  {
    ConcatNil(LinesOf(es[..n], hs[..n]));
    ChainEndOf([], es[..n], hs[..n]);
    assert ChainEnd([]) == "";
  }

  lemma VerifyPair(mac: Mac, lines: seq<string>, flagged: seq<int>, entry: string, hash: string)
    requires |flagged| <= |lines| && (flagged != [] ==> flagged[0] >= 1)
    requires Verify(mac, lines) == Report(|lines|, flagged) && !Contains(hash, HASH_PREFIX)
    ensures Verify(mac, lines + [EntryLine(entry, hash)])
         == Report(|lines| + 1, if mac(ChainEnd(lines) + entry) == hash then flagged else flagged + [|lines| + 1])
  {
    hide Verify, ChainEnd, EntryLine, Contains;
    VerifySnoc(mac, lines, entry, hash);
  }

  /** Lines whose recorded hashes are well-formed verify pair by pair. */
  lemma {:induction false} VerifyPairs(mac: Mac, es: seq<string>, hs: seq<string>)
    requires |es| == |hs| && forall i :: 0 <= i < |hs| ==> !Contains(hs[i], HASH_PREFIX)
    ensures Verify(mac, LinesOf(es, hs)) == Report(|es|, Flagged(mac, es, hs))
  {
    if es != [] {
      hide Verify, ChainEnd, EntryLine, Report, Contains, Before;
      var n := |es| - 1;
      VerifyPairs(mac, es[..n], hs[..n]);
      ChainOfPairs(es, hs, n);
      VerifyPair(mac, LinesOf(es[..n], hs[..n]), Flagged(mac, es[..n], hs[..n]), es[n], hs[n]);
    }
  }

  /** The 1-based numbers of lines lo + 1 to hi. */
  function Numbers(lo: nat, hi: nat): seq<int>
    requires lo <= hi
  {
    if lo == hi then [] else Numbers(lo, hi - 1) + [hi]
  }

  lemma {:induction false} FlaggedRange(mac: Mac, es: seq<string>, hs: seq<string>, lo: nat, hi: nat)
    requires |es| == |hs| && lo <= hi <= |es|
    requires forall i: nat :: i < |es| ==> (Mismatch(mac, es, hs, i) <==> lo <= i < hi)
    ensures Flagged(mac, es, hs) == Numbers(lo, hi)
  {
    if es != [] {
      var n := |es| - 1;
      forall i: nat | i < n ensures Mismatch(mac, es[..n], hs[..n], i) == Mismatch(mac, es, hs, i) {
      }
      assert Mismatch(mac, es, hs, n) <==> lo <= n < hi;
      FlaggedRange(mac, es[..n], hs[..n], if lo <= n then lo else n, if hi <= n then hi else n);
    }
  }

  lemma NumbersShort(i: nat)
    ensures Numbers(i, i) == [] && Numbers(i, i + 1) == [i + 1] && Numbers(i, i + 2) == [i + 1, i + 2]
  {
    assert Numbers(i, i + 2) == Numbers(i, i + 1) + [i + 2];
  }

  // ---------- Replacing one line ----------

  /** The 1-based numbers of the lines that are flagged when line i + 1 is replaced. */
  function Flags(mac: Mac, es: seq<string>, i: nat, line: string): seq<int>
    requires i < |es|
  {
    var hs := Hashes(mac, es);
    (match SplitEntryAndHash(line)
     case Legacy(_) => []
     case Hashed(e, h) => if mac(Before("", hs, i) + e) == h then [] else [i + 1])
    + (if i + 1 < |es| && ChainEnd([line]) != hs[i] then [i + 2] else [])
  }

  /** The report after n more lines that verify. */
  function Passed(r: VerifyResult, n: nat): VerifyResult {
    r.(total := r.total + n, valid := r.valid + n)
  }

  /** The report after one more line that does not. */
  function Failed(r: VerifyResult, lineNum: nat): VerifyResult {
    r.(total := r.total + 1, tampered := r.tampered + [lineNum],
       firstTampered := if r.firstTampered == -1 then lineNum else r.firstTampered)
  }

  /** The report on a log of which line i + 1 was replaced. */
  predicate IsReplacedReport(r: VerifyResult, mac: Mac, es: seq<string>, i: nat, line: string)
    requires i < |es|
  {
    && r.tampered == Flags(mac, es, i, line)
    && r.firstTampered == (if r.tampered == [] then -1 else r.tampered[0])
    && r.skipped == (if SplitEntryAndHash(line).Hashed? then 0 else 1) && r.total == |es| - r.skipped
  }

  lemma HashesSplit(mac: Mac, es: seq<string>, i: nat)
    requires i <= |es|
    ensures var hs := Hashes(mac, es);
            hs[..i] == Hashes(mac, es[..i]) && hs[i..] == HashesFrom(mac, Before("", hs, i), es[i..])
  {
    assert es == es[..i] + es[i..];
    HashesConcat(mac, "", es[..i], es[i..]);
  }

  /** The lines before the replaced one verify. */
  lemma FrontVerifies(mac: Mac, es: seq<string>, i: nat)
    requires HexMac(mac) && i <= |es|
    ensures var front := LinesOf(es[..i], Hashes(mac, es)[..i]);
            && Verify(mac, front) == VerifyResult(i, i, -1, [], 0)
            && ChainEnd(front) == Before("", Hashes(mac, es), i)
  {
    hide Verify;
    HashesSplit(mac, es, i);
    HashesAreHex(mac, "", es);
    ChainOfPairs(es, Hashes(mac, es), i);
    ChainedLinesVerify(mac, [], es[..i]);
    ConcatNil(LinesOf(es[..i], Hashes(mac, es[..i])));
    VerifyNothing(mac);
  }

  lemma VerifyNothing(mac: Mac)
    ensures Verify(mac, []) == VerifyResult(0, 0, -1, [], 0) && ChainEnd([]) == ""
  {
  }

  lemma LinesOfSplit(es: seq<string>, hs: seq<string>, i: nat)
    requires i <= |es| == |hs|
    ensures LinesOf(es, hs) == LinesOf(es[..i], hs[..i]) + LinesOf(es[i..], hs[i..])
  {
    assert es == es[..i] + es[i..] && hs == hs[..i] + hs[i..];
    LinesOfConcat(es[..i], hs[..i], es[i..], hs[i..]);
  }

  lemma LinesOfHead(es: seq<string>, hs: seq<string>, i: nat)
    requires i < |es| == |hs|
    ensures LinesOf(es[i..], hs[i..]) == [EntryLine(es[i], hs[i])] + LinesOf(es[i + 1..], hs[i + 1..])
  {
    assert [es[i]][..0] == [] && [hs[i]][..0] == [];
    assert es[i..] == [es[i]] + es[i + 1..] && hs[i..] == [hs[i]] + hs[i + 1..];
    LinesOfConcat([es[i]], [hs[i]], es[i + 1..], hs[i + 1..]);
  }

  lemma ReplaceAt<T>(front: seq<T>, x: T, back: seq<T>, y: T)
    ensures (front + ([x] + back))[|front| := y] == front + [y] + back
  {
  }

  lemma LinesAround(es: seq<string>, hs: seq<string>, i: nat, line: string)
    requires i < |es| == |hs|
    ensures LinesOf(es, hs)[i := line]
         == LinesOf(es[..i], hs[..i]) + [line] + LinesOf(es[i + 1..], hs[i + 1..])
  {
    hide LinesOf;
    LinesOfSplit(es, hs, i);
    LinesOfHead(es, hs, i);
    ReplaceAt(LinesOf(es[..i], hs[..i]), EntryLine(es[i], hs[i]), LinesOf(es[i + 1..], hs[i + 1..]), line);
  }

  /** The lines after the replaced one: the first verifies if and only if the chain state it meets is the one it
      was written in, the others do. */
  lemma BackVerifies(mac: Mac, es: seq<string>, i: nat, before: seq<string>)
    requires HexMac(mac) && i < |es| && |before| == i + 1
    requires i + 1 < |es| ==>
               CollisionFree(mac, {Hashes(mac, es)[i] + es[i + 1], ChainEnd(before) + es[i + 1]})
    ensures var hs := Hashes(mac, es);
            var r := Verify(mac, before);
            var n := |es| - (i + 1);
            Verify(mac, before + LinesOf(es[i + 1..], hs[i + 1..]))
            == if i + 1 == |es| || ChainEnd(before) == hs[i] then Passed(r, n) else Passed(Failed(r, i + 2), n - 1)
  {
    hide Verify, ChainEnd, Contains, Hashes, HashesFrom, LinesOf, EntryLine, CollisionFree, Passed, Failed;
    var hs := Hashes(mac, es);
    if i + 1 == |es| {
      PassedNone(Verify(mac, before));
      NoLinesAfter(mac, es, before);
    } else {
      var e, h := es[i + 1], hs[i + 1];
      NextHash(mac, es, i, ChainEnd(before));
      VerifyNext(mac, before, e, h);
      PassedOnce(Verify(mac, before), |es| - (i + 2));
      LinesOfHead(es, hs, i + 1);
      ConcatAssoc(before, [EntryLine(e, h)], LinesOf(es[i + 2..], hs[i + 2..]));
      ChainEndSnoc(before, e, h);
      RestVerifies(mac, es, i + 2, before + [EntryLine(e, h)]);
    }
  }

  lemma NoLinesAfter(mac: Mac, es: seq<string>, before: seq<string>)
    ensures before + LinesOf(es[|es|..], Hashes(mac, es)[|es|..]) == before
  {
    ConcatNil(before);
  }

  lemma NextHash(mac: Mac, es: seq<string>, i: nat, state: string)
    requires HexMac(mac) && i + 1 < |es|
    requires CollisionFree(mac, {Hashes(mac, es)[i] + es[i + 1], state + es[i + 1]})
    ensures mac(state + es[i + 1]) == Hashes(mac, es)[i + 1] <==> state == Hashes(mac, es)[i]
    ensures !Contains(Hashes(mac, es)[i + 1], HASH_PREFIX)
  {
    hide Contains;
    HashesAreHex(mac, "", es);
    HashAt(mac, "", es, i + 1);
    if state != Hashes(mac, es)[i] {
      SuffixCancels(state, Hashes(mac, es)[i], es[i + 1]);
    }
  }

  lemma VerifyNext(mac: Mac, before: seq<string>, e: string, h: string)
    requires !Contains(h, HASH_PREFIX)
    ensures var r := Verify(mac, before);
            Verify(mac, before + [EntryLine(e, h)])
            == if mac(ChainEnd(before) + e) == h then Passed(r, 1) else Failed(r, |before| + 1)
  {
    hide Verify, ChainEnd, Contains;
    VerifySnoc(mac, before, e, h);
  }

  lemma PassedNone(r: VerifyResult)
    ensures Passed(r, 0) == r
  {
  }

  lemma PassedOnce(r: VerifyResult, n: nat)
    ensures Passed(Passed(r, 1), n) == Passed(r, n + 1)
  {
  }

  /** Behind a line that carries its old hash all lines verify. */
  lemma RestVerifies(mac: Mac, es: seq<string>, i: nat, before: seq<string>)
    requires HexMac(mac) && 0 < i <= |es| && ChainEnd(before) == Hashes(mac, es)[i - 1]
    ensures var r := Verify(mac, before);
            Verify(mac, before + LinesOf(es[i..], Hashes(mac, es)[i..])) == Passed(r, |es| - i)
  {
    hide Verify, ChainEnd, HashesFrom, LinesOf;
    HashesSplit(mac, es, i);
    ChainedLinesVerify(mac, before, es[i..]);
  }

  /** Whatever one line of the log is replaced with, an entry with or without a hash, the verifier flags exactly
      the line itself, unless its hash is the right one or it has none, and its successor, unless the line
      still carries the old hash. */
  lemma LineReplaced(mac: Mac, es: seq<string>, i: nat, line: string)
    requires HexMac(mac) && i < |es|
    requires i + 1 < |es| ==>
               CollisionFree(mac, {Hashes(mac, es)[i] + es[i + 1], ChainEnd([line]) + es[i + 1]})
    ensures IsReplacedReport(Verify(mac, LinesOf(es, Hashes(mac, es))[i := line]), mac, es, i, line)
  {
    hide Verify, Hashes, LinesOf, ChainEnd, CollisionFree, Before, Judge, Passed, Failed, IsReplacedReport, HexMac;
    var hs := Hashes(mac, es);
    var front := LinesOf(es[..i], hs[..i]);
    UpToReplaced(mac, es, i, line);
    BackVerifies(mac, es, i, front + [line]);
    LinesAround(es, hs, i, line);
    ReplacedReport(mac, es, i, line);
  }

  lemma UpToReplaced(mac: Mac, es: seq<string>, i: nat, line: string)
    requires HexMac(mac) && i < |es|
    ensures var front := LinesOf(es[..i], Hashes(mac, es)[..i]);
            && Verify(mac, front + [line])
               == Judge(mac, VerifyResult(i, i, -1, [], 0), i + 1, Before("", Hashes(mac, es), i), line)
            && ChainEnd(front + [line]) == ChainEnd([line])
  {
    hide Verify, Hashes, LinesOf, ChainEnd, Before, Judge, HexMac;
    var front := LinesOf(es[..i], Hashes(mac, es)[..i]);
    FrontVerifies(mac, es, i);
    VerifyLast(mac, front, line);
    ChainEndLast(front, line);
  }

  lemma ReplacedReport(mac: Mac, es: seq<string>, i: nat, line: string)
    requires i < |es|
    ensures var hs, n := Hashes(mac, es), |es| - (i + 1);
            var r := Judge(mac, VerifyResult(i, i, -1, [], 0), i + 1, Before("", hs, i), line);
            var all := if i + 1 == |es| || ChainEnd([line]) == hs[i] then Passed(r, n)
                       else Passed(Failed(r, i + 2), n - 1);
            IsReplacedReport(all, mac, es, i, line)
  {
    hide SplitEntryAndHash, HashesFrom, ChainEnd;
  }

  lemma ChainEndLast(front: seq<string>, line: string)
    ensures ChainEnd(front + [line]) == ChainEnd([line])
  {
  }

  /** Changing the text of one entry flags exactly that line. */
  lemma EntryTampering(mac: Mac, es: seq<string>, i: nat, e: string)
    requires HexMac(mac) && i < |es| && e != es[i]
    requires var prev := Before("", Hashes(mac, es), i); CollisionFree(mac, {prev + es[i], prev + e})
    ensures var r := Verify(mac, LinesOf(es[i := e], Hashes(mac, es)));
            r.tampered == [i + 1] && r.firstTampered == i + 1 && r.total == |es| && r.skipped == 0
  {
    hide Verify, HashesFrom, LinesOf, EntryLine, ChainEnd, Contains;
    var hs := Hashes(mac, es);
    HashesAreHex(mac, "", es);
    HashAt(mac, "", es, i);
    PrefixCancels(Before("", hs, i), e, es[i]);
    SplitEntryLine(e, hs[i]);
    ChainEndSnoc([], e, hs[i]);
    ConcatNil([EntryLine(e, hs[i])]);
    LineReplaced(mac, es, i, EntryLine(e, hs[i]));
    LinesAround(es, hs, i, EntryLine(e, hs[i]));
    EntryChanged(es, hs, i, e);
  }

  lemma EntryChanged(es: seq<string>, hs: seq<string>, i: nat, e: string)
    requires i < |es| == |hs|
    ensures LinesOf(es[i := e], hs) == LinesOf(es, hs)[i := EntryLine(e, hs[i])]
  {
    var a, b := LinesOf(es[i := e], hs), LinesOf(es, hs)[i := EntryLine(e, hs[i])];
    forall k: nat | k < |es| ensures a[k] == b[k] {
      LinesOfAt(es, hs, k);
      LinesOfAt(es[i := e], hs, k);
    }
  }

  lemma HashChanged(es: seq<string>, hs: seq<string>, i: nat, h: string)
    requires i < |es| == |hs|
    ensures LinesOf(es, hs[i := h]) == LinesOf(es, hs)[i := EntryLine(es[i], h)]
  {
    var a, b := LinesOf(es, hs[i := h]), LinesOf(es, hs)[i := EntryLine(es[i], h)];
    forall k: nat | k < |es| ensures a[k] == b[k] {
      LinesOfAt(es, hs, k);
      LinesOfAt(es, hs[i := h], k);
    }
  }

  /** Changing one recorded hash flags what LineReplaced says for the line as it then splits; if the new hash does
      not contain the hash prefix, these are exactly that line and its successor. */
  lemma HashTampering(mac: Mac, es: seq<string>, i: nat, h: string)
    requires HexMac(mac) && i < |es| && h != Hashes(mac, es)[i]
    requires i + 1 < |es| ==>
               CollisionFree(mac, {Hashes(mac, es)[i] + es[i + 1], ChainEnd([EntryLine(es[i], h)]) + es[i + 1]})
    ensures var r := Verify(mac, LinesOf(es, Hashes(mac, es)[i := h]));
            && r.tampered == Flags(mac, es, i, EntryLine(es[i], h))
            && (!Contains(h, HASH_PREFIX) ==>
                  r.tampered == (if i + 1 < |es| then [i + 1, i + 2] else [i + 1]) && r.firstTampered == i + 1)
            && r.total == |es| && r.skipped == 0
  {
    hide Verify, HashesFrom, LinesOf, EntryLine, ChainEnd, Contains;
    var hs := Hashes(mac, es);
    HashAt(mac, "", es, i);
    LineReplaced(mac, es, i, EntryLine(es[i], h));
    HashChanged(es, hs, i, h);
    EntryLineIsHashed(es[i], h);
    if !Contains(h, HASH_PREFIX) {
      SplitEntryLine(es[i], h);
      ChainEndSnoc([], es[i], h);
      ConcatNil([EntryLine(es[i], h)]);
    }
  }

  lemma EntryLineIsHashed(e: string, h: string)
    ensures SplitEntryAndHash(EntryLine(e, h)).Hashed?
  {
    var line := EntryLine(e, h);
    assert line[|e|..|e| + 8] == HASH_PREFIX;
    assert OccursAt(line, HASH_PREFIX, |e|);
  }

  /** Taking the hash off a line turns it into a legacy line: it is skipped, its successor is flagged, and at the
      end of the log nothing is. */
  lemma HashStripped(mac: Mac, es: seq<string>, i: nat)
    requires HexMac(mac) && i < |es| && !Contains(es[i], HASH_PREFIX)
    requires i + 1 < |es| ==> CollisionFree(mac, {Hashes(mac, es)[i] + es[i + 1], es[i + 1]})
    ensures var r := Verify(mac, LinesOf(es, Hashes(mac, es))[i := es[i]]);
            && r.tampered == (if i + 1 < |es| then [i + 2] else [])
            && (r.IsValid() <==> i + 1 == |es|) && r.skipped == 1 && r.total == |es| - 1
  {
    hide Verify, HashesFrom, LinesOf, Contains;
    HashedIff(es[i]);
    HashesAreHex(mac, "", es);
    if i + 1 < |es| {
      ConcatNil(es[i + 1]);
    }
    LineReplaced(mac, es, i, es[i]);
  }

  // ---------- Distinct hashes ----------

  predicate Dashed(e: string) {
    |e| >= 5 && e[4] == '-'
  }

  lemma EntriesAreDashed(e: Entry)
    requires e.Stamped()
    ensures Dashed(e.Text())
  {
    assert e.Text()[4] == e.timestamp[4];
  }

  /** The messages hashed by the writer of `es`. */
  ghost function Written(mac: Mac, es: seq<string>): set<string> {
    set i | 0 <= i < |es| :: Before("", Hashes(mac, es), i) + es[i]
  }

  /** No two lines of a log carry the same hash, and none the genesis state: equal hashes would give equal
      hashes one line earlier, down to the first line, whose message starts with a timestamp and not with a
      digest. */
  lemma {:induction false} HashesDistinct(mac: Mac, es: seq<string>, i: nat, j: nat)
    requires HexMac(mac) && i < j < |es| && CollisionFree(mac, Written(mac, es))
    requires forall k :: 0 <= k < |es| ==> Dashed(es[k])
    ensures Hashes(mac, es)[i] != Hashes(mac, es)[j]
    decreases i
  {
    var hs := Hashes(mac, es);
    HashAt(mac, "", es, i);
    HashAt(mac, "", es, j);
    HashesAreHex(mac, "", es);
    var mi, mj := Before("", hs, i) + es[i], Before("", hs, j) + es[j];
    assert mi in Written(mac, es) && mj in Written(mac, es);
    if mi == mj {
      assert mj[4] == hs[j - 1][4];
      assert IsHex(hs[j - 1][4]);
      if i > 0 {
        assert mi[..64] == hs[i - 1] && mj[..64] == hs[j - 1];
        HashesDistinct(mac, es, i - 1, j - 1);
      }
    }
  }

  // ---------- Deletion ----------

  predicate Deletable(mac: Mac, es: seq<string>, i: nat, j: nat) {
    && i < j <= |es|
    && (forall k :: 0 <= k < |es| ==> Dashed(es[k]))
  }

  /** The line after a deletion was chained from another hash than the one now before it. */
  lemma SeamMismatch(mac: Mac, es: seq<string>, i: nat, j: nat)
    requires HexMac(mac) && Deletable(mac, es, i, j) && j < |es|
    requires CollisionFree(mac, Written(mac, es) + {Before("", Hashes(mac, es), i) + es[j]})
    ensures mac(Before("", Hashes(mac, es), i) + es[j]) != Hashes(mac, es)[j]
  {
    var hs := Hashes(mac, es);
    HashesAreHex(mac, "", es);
    HashAt(mac, "", es, j);
    if i > 0 {
      HashesDistinct(mac, es, i - 1, j - 1);
    }
    SuffixCancels(hs[j - 1], Before("", hs, i), es[j]);
    assert Before("", hs, j) + es[j] in Written(mac, es);
  }

  /** The mismatches after a deletion are those at the seam. */
  lemma OtherPairsMatch(mac: Mac, es: seq<string>, i: nat, j: nat, k: nat)
    requires i < j <= |es| && k < |es| - (j - i)
    ensures var hs := Hashes(mac, es);
            Mismatch(mac, es[..i] + es[j..], hs[..i] + hs[j..], k) <==>
              k == i && mac(Before("", hs, i) + es[j]) != hs[j]
  {
    var hs := Hashes(mac, es);
    AfterDeletion(es, i, j, k);
    AfterDeletion(hs, i, j, k);
    HashAt(mac, "", es, if k < i then k else k + (j - i));
    if k > 0 {
      AfterDeletion(hs, i, j, k - 1);
    }
  }

  /** Deleting lines i + 1 to j flags exactly the line that followed them; deleting the tail of the log flags
      nothing.  So a deletion is detected if and only if a line follows it. */
  lemma Deletion(mac: Mac, es: seq<string>, i: nat, j: nat)
    requires HexMac(mac) && Deletable(mac, es, i, j)
    requires CollisionFree(mac, Written(mac, es)
                                + (if j < |es| then {Before("", Hashes(mac, es), i) + es[j]} else {}))
    ensures var hs := Hashes(mac, es);
            var r := Verify(mac, LinesOf(es[..i] + es[j..], hs[..i] + hs[j..]));
            && r.tampered == (if j < |es| then [i + 1] else [])
            && (r.IsValid() <==> j == |es|)
            && r.total == |es| - (j - i) && r.skipped == 0
  {
    var hs := Hashes(mac, es);
    var es', hs' := es[..i] + es[j..], hs[..i] + hs[j..];
    var hi := if j < |es| then i + 1 else i;
    HashesAreHex(mac, "", es);
    if j < |es| {
      SeamMismatch(mac, es, i, j);
    }
    forall k: nat | k < |es'|
      ensures (Mismatch(mac, es', hs', k) <==> i <= k < hi) && !Contains(hs'[k], HASH_PREFIX)
    {
      AfterDeletion(hs, i, j, k);
      OtherPairsMatch(mac, es, i, j, k);
    }
    VerifyPairs(mac, es', hs');
    FlaggedRange(mac, es', hs', i, hi);
    NumbersShort(i);
  }

  lemma AfterDeletion<T>(s: seq<T>, i: nat, j: nat, k: nat)
    requires i < j <= |s| && k < |s| - (j - i)
    ensures (s[..i] + s[j..])[k] == s[if k < i then k else k + (j - i)]
  {
  }
}
