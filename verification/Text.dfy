/** The string operations the modelled code takes from Go's `strings` package. */
module Text {

  // ---------- Sequences ----------

  lemma InitLast<T>(s: seq<T>)
    requires s != []
    ensures s == s[..|s| - 1] + [s[|s| - 1]]
  {
  }

  lemma SnocInit<T>(s: seq<T>, x: T)
    ensures (s + [x])[..|s + [x]| - 1] == s && (s + [x])[|s + [x]| - 1] == x
  {
  }

  lemma PrefixStep<T>(s: seq<T>, i: nat)
    requires i < |s|
    ensures s[..i + 1] != [] && s[..i + 1][..|s[..i + 1]| - 1] == s[..i] && s[..i + 1][|s[..i + 1]| - 1] == s[i]
  {
  }

  lemma WholePrefix<T>(s: seq<T>)
    ensures s[..|s|] == s
  {
  }

  lemma ConcatAssoc<T>(a: seq<T>, b: seq<T>, c: seq<T>)
    ensures a + b + c == a + (b + c)
  {
  }

  lemma ConcatNil<T>(s: seq<T>)
    ensures [] + s == s && s + [] == s
  {
  }

  lemma SuffixCancels<T>(a: seq<T>, b: seq<T>, s: seq<T>)
    requires a != b
    ensures a + s != b + s
  {
    assert |a| == |b| ==> (a + s)[..|a|] == a && (b + s)[..|a|] == b;
  }

  lemma PrefixCancels<T>(p: seq<T>, a: seq<T>, b: seq<T>)
    requires a != b
    ensures p + a != p + b
  {
    assert (p + a)[|p|..] == a && (p + b)[|p|..] == b;
  }

  lemma HeadsDiffer<T>(p: seq<T>, q: seq<T>, a: seq<T>, b: seq<T>)
    requires |p| == |q| && p != q
    ensures p + a != q + b
  {
    assert (p + a)[..|p|] == p && (q + b)[..|p|] == q;
  }

  /** The parts one after another. */
  function Flatten<T>(parts: seq<seq<T>>): seq<T> {
    if parts == [] then [] else Flatten(parts[..|parts| - 1]) + parts[|parts| - 1]
  }

  lemma FlattenSnoc<T>(parts: seq<seq<T>>, part: seq<T>)
    ensures Flatten(parts + [part]) == Flatten(parts) + part
  {
    SnocInit(parts, part);
  }

  lemma {:induction false} FlattenConcat<T>(a: seq<seq<T>>, b: seq<seq<T>>)
    ensures Flatten(a + b) == Flatten(a) + Flatten(b)
  {
    if b == [] {
      ConcatNil(a);
      ConcatNil(Flatten(a));
    } else {
      var n := |b| - 1;
      FlattenConcat(a, b[..n]);
      ConcatAssoc(a, b[..n], [b[n]]);
      InitLast(b);
      FlattenSnoc(a + b[..n], b[n]);
      ConcatAssoc(Flatten(a), Flatten(b[..n]), b[n]);
    }
  }

  // ---------- Occurrences ----------

  predicate OccursAt(s: string, p: string, i: int) {
    0 <= i && i + |p| <= |s| && s[i..i + |p|] == p
  }

  lemma DiffersAt(s: string, p: string, i: nat, k: nat)
    requires k < |p| && i + |p| <= |s| && s[i + k] != p[k]
    ensures !OccursAt(s, p, i)
  {
    assert s[i..i + |p|][k] == s[i + k];
  }

  predicate Contains(s: string, p: string) {
    exists i :: 0 <= i <= |s| && OccursAt(s, p, i)
  }

  /** The position of the last occurrence of `p` in `s`, or -1. */
  function LastIndex(s: string, p: string): (r: int)
    ensures -1 <= r <= |s|
    ensures r >= 0 ==> OccursAt(s, p, r)
    ensures forall j {:trigger OccursAt(s, p, j)} :: r < j ==> !OccursAt(s, p, j)
  {
    LastIndexUpTo(s, p, |s|)
  }

  function LastIndexUpTo(s: string, p: string, i: int): (r: int)
    requires -1 <= i <= |s|
    ensures -1 <= r <= i
    ensures r >= 0 ==> OccursAt(s, p, r)
    ensures forall j {:trigger OccursAt(s, p, j)} :: r < j <= i ==> !OccursAt(s, p, j)
    decreases i
  {
    if i < 0 || OccursAt(s, p, i) then i else LastIndexUpTo(s, p, i - 1)
  }

  /** The position of the first occurrence of `p` in `s`, or -1. */
  function Index(s: string, p: string): (r: int)
    ensures -1 <= r <= |s|
    ensures r >= 0 ==> OccursAt(s, p, r)
    ensures r == -1 <==> !Contains(s, p)
  {
    IndexFrom(s, p, 0)
  }

  function IndexFrom(s: string, p: string, i: nat): (r: int)
    requires i <= |s|
    ensures r == -1 || i <= r <= |s|
    ensures r >= 0 ==> OccursAt(s, p, r)
    ensures r == -1 ==> forall j {:trigger OccursAt(s, p, j)} :: i <= j <= |s| ==> !OccursAt(s, p, j)
    decreases |s| - i
  {
    if OccursAt(s, p, i) then i else if i == |s| then -1 else IndexFrom(s, p, i + 1)
  }

  // ---------- Split and Join on one character ----------

  function Glue(x: char, c: char, rest: seq<string>): seq<string>
    requires |rest| >= 1
  {
    if x == c then [""] + rest else [[x] + rest[0]] + rest[1..]
  }

  function Split(s: string, c: char): (parts: seq<string>)
    ensures |parts| >= 1
    ensures forall i :: 0 <= i < |parts| ==> c !in parts[i]
  {
    if s == [] then [""] else Glue(s[0], c, Split(s[1..], c))
  }

  function Join(parts: seq<string>, c: char): string {
    if |parts| == 0 then "" else if |parts| == 1 then parts[0]
    else parts[0] + [c] + Join(parts[1..], c)
  }

  lemma {:induction false} JoinSplit(s: string, c: char)
    ensures Join(Split(s, c), c) == s
  {
    if s != [] {
      JoinSplit(s[1..], c);
      var rest := Split(s[1..], c);
      if s[0] == c {
        assert ([""] + rest)[1..] == rest;
      } else {
        assert ([[s[0]] + rest[0]] + rest[1..])[1..] == rest[1..];
      }
    }
  }

  /** A text free of the separator is one part. */
  lemma {:induction false} SplitPlain(s: string, c: char)
    requires c !in s
    ensures Split(s, c) == [s]
  {
    if s != [] {
      SplitPlain(s[1..], c);
      assert [s[0]] + s[1..] == s;
    }
  }

  lemma SplitCons(x: char, s: string, c: char)
    ensures Split([x] + s, c) == Glue(x, c, Split(s, c))
  {
    assert ([x] + s)[1..] == s;
  }

  /** A separator between two texts separates their parts. */
  lemma {:induction false} SplitConcat(a: string, c: char, b: string)
    ensures Split(a + [c] + b, c) == Split(a, c) + Split(b, c)
  {
    if a == [] {
      assert a + [c] + b == [c] + b;
      SplitCons(c, b, c);
    } else {
      SplitConcat(a[1..], c, b);
      SplitCons(a[0], a[1..] + [c] + b, c);
      SplitCons(a[0], a[1..], c);
      assert a == [a[0]] + a[1..] && a + [c] + b == [a[0]] + (a[1..] + [c] + b);
      GlueConcat(a[0], c, Split(a[1..], c), Split(b, c));
    }
  }

  lemma SplitEnded(text: string)
    ensures Split(text + "\n", '\n') == Split(text, '\n') + [""]
  {
    SplitConcat(text, '\n', "");
    ConcatNil(text + "\n");
  }

  lemma GlueConcat(x: char, c: char, p: seq<string>, q: seq<string>)
    requires |p| >= 1
    ensures Glue(x, c, p + q) == Glue(x, c, p) + q
  {
    assert (p + q)[1..] == p[1..] + q;
  }

  /** Splitting undoes joining, for parts free of the separator. */
  lemma {:induction false} SplitJoin(parts: seq<string>, c: char)
    requires |parts| >= 1 && forall i :: 0 <= i < |parts| ==> c !in parts[i]
    ensures Split(Join(parts, c), c) == parts
  {
    SplitPlain(parts[0], c);
    if |parts| == 1 {
      assert parts == [parts[0]];
    } else {
      SplitJoin(parts[1..], c);
      SplitConcat(parts[0], c, Join(parts[1..], c));
      assert parts == [parts[0]] + parts[1..];
    }
  }

  lemma {:induction false} JoinConcat(a: seq<string>, b: seq<string>, c: char)
    requires |a| >= 1 && |b| >= 1
    ensures Join(a + b, c) == Join(a, c) + [c] + Join(b, c)
  {
    if |a| == 1 {
      assert (a + b)[1..] == b;
    } else {
      JoinConcat(a[1..], b, c);
      assert (a + b)[1..] == a[1..] + b;
    }
  }

  // ---------- Trimming ----------

  /** The characters Go's unicode.IsSpace accepts. */
  predicate IsSpace(c: char) {
    || '\t' <= c <= '\r' || c == ' ' || c == '\U{85}' || c == '\U{A0}' || c == '\U{1680}'
    || '\U{2000}' <= c <= '\U{200A}'
    || c == '\U{2028}' || c == '\U{2029}' || c == '\U{202F}' || c == '\U{205F}' || c == '\U{3000}'
  }

  predicate Blank(s: string) {
    forall i :: 0 <= i < |s| ==> IsSpace(s[i])
  }

  /** How many blanks a text starts with. */
  function LeadingBlanks(s: string): (n: nat)
    ensures n <= |s|
  {
    if s != "" && IsSpace(s[0]) then 1 + LeadingBlanks(s[1..]) else 0
  }

  function TrailingBlanks(s: string): (n: nat)
    ensures n <= |s|
  {
    if s != "" && IsSpace(s[|s| - 1]) then 1 + TrailingBlanks(s[..|s| - 1]) else 0
  }

  function TrimLeft(s: string): string {
    s[LeadingBlanks(s)..]
  }

  function TrimRight(s: string): string {
    s[..|s| - TrailingBlanks(s)]
  }

  lemma {:induction false} LeadingAreBlank(s: string)
    ensures Blank(s[..LeadingBlanks(s)])
    ensures LeadingBlanks(s) < |s| ==> !IsSpace(s[LeadingBlanks(s)])
  {
    if s != "" && IsSpace(s[0]) {
      LeadingAreBlank(s[1..]);
      var n := LeadingBlanks(s[1..]);
      assert s[..n + 1] == [s[0]] + s[1..][..n];
    }
  }

  lemma {:induction false} TrailingAreBlank(s: string)
    ensures Blank(s[|s| - TrailingBlanks(s)..])
    ensures TrailingBlanks(s) < |s| ==> !IsSpace(s[|s| - 1 - TrailingBlanks(s)])
  {
    if s != "" && IsSpace(s[|s| - 1]) {
      TrailingAreBlank(s[..|s| - 1]);
      var n := TrailingBlanks(s[..|s| - 1]);
      assert s[|s| - 1 - n..] == s[..|s| - 1][|s| - 1 - n..] + [s[|s| - 1]];
    }
  }

  lemma TrimLeftStep(s: string)
    ensures TrimLeft(s) == if s != "" && IsSpace(s[0]) then TrimLeft(s[1..]) else s
  {
  }

  lemma TrimRightStep(s: string)
    ensures TrimRight(s) == if s != "" && IsSpace(s[|s| - 1]) then TrimRight(s[..|s| - 1]) else s
  {
  }

  /** What trimming a side leaves starts or ends with no blank, and what it takes off is blank. */
  lemma TrimLeftIs(s: string)
    ensures var r := TrimLeft(s);
            && |r| <= |s| && r == s[|s| - |r|..] && Blank(s[..|s| - |r|])
            && (r != "" ==> !IsSpace(r[0]))
  {
    hide LeadingBlanks;
    LeadingAreBlank(s);
  }

  lemma TrimRightIs(s: string)
    ensures var r := TrimRight(s);
            && |r| <= |s| && r == s[..|r|] && Blank(s[|r|..])
            && (r != "" ==> !IsSpace(r[|r| - 1]))
  {
    hide TrailingBlanks;
    TrailingAreBlank(s);
  }

  function Trim(s: string): string {
    TrimRight(TrimLeft(s))
  }

  predicate Trimmed(s: string) {
    s != "" ==> !IsSpace(s[0]) && !IsSpace(s[|s| - 1])
  }

  lemma {:induction false} TrimLeftSkips(a: string, s: string)
    requires Blank(a)
    ensures TrimLeft(a + s) == TrimLeft(s)
  {
    if a == "" {
      assert a + s == s;
    } else {
      assert (a + s)[1..] == a[1..] + s && (a + s)[0] == a[0];
      TrimLeftStep(a + s);
      TrimLeftSkips(a[1..], s);
    }
  }

  lemma {:induction false} TrimRightSkips(s: string, a: string)
    requires Blank(a)
    ensures TrimRight(s + a) == TrimRight(s)
  {
    if a == "" {
      assert s + a == s;
    } else {
      assert (s + a)[..|s + a| - 1] == s + a[..|a| - 1] && (s + a)[|s + a| - 1] == a[|a| - 1];
      TrimRightStep(s + a);
      TrimRightSkips(s, a[..|a| - 1]);
    }
  }

  lemma {:induction false} TrimBlank(s: string)
    requires Blank(s)
    ensures TrimLeft(s) == "" && TrimRight(s) == "" && Trim(s) == ""
  {
    TrimLeftSkips(s, "");
    TrimRightSkips("", s);
    assert s + "" == s == "" + s;
  }

  /** Trimming a text trims it the same whatever blanks surround it. */
  lemma TrimSurrounded(a: string, s: string, b: string)
    requires Blank(a) && Blank(b)
    ensures Trim(a + s + b) == Trim(s)
  {
    hide TrimLeft, TrimRight;
    ConcatAssoc(a, s, b);
    TrimLeftSkips(a, s + b);
    if Blank(s) {
      TrimBlank(s);
      BlankConcat(s, b);
      TrimBlank(s + b);
    } else {
      TrimLeftKeepsEnd(s, b);
      TrimRightSkips(TrimLeft(s), b);
    }
  }

  lemma BlankConcat(a: string, b: string)
    requires Blank(a) && Blank(b)
    ensures Blank(a + b)
  {
  }

  lemma {:induction false} TrimLeftKeepsEnd(s: string, b: string)
    requires !Blank(s)
    ensures TrimLeft(s + b) == TrimLeft(s) + b
  {
    assert s != "";
    assert (s + b)[1..] == s[1..] + b && (s + b)[0] == s[0];
    if IsSpace(s[0]) {
      assert !Blank(s[1..]);
      TrimLeftKeepsEnd(s[1..], b);
    }
  }

  lemma TrimTrimmed(s: string)
    requires Trimmed(s)
    ensures Trim(s) == s
  {
  }

  // ---------- Decimal numbers ----------

  function Digit(d: nat): char
    requires d < 10
  {
    '0' + d as char
  }

  /** The decimal notation of n, as fmt prints it with %d. */
  function Decimal(n: nat): (r: string)
    ensures r != "" && forall i :: 0 <= i < |r| ==> '0' <= r[i] <= '9'
    ensures n >= 10 ==> |r| >= 2
  {
    if n < 10 then [Digit(n)] else Decimal(n / 10) + [Digit(n % 10)]
  }

  lemma {:induction false} DecimalIsInjective(m: nat, n: nat)
    requires m != n
    ensures Decimal(m) != Decimal(n)
  {
    if m >= 10 && n >= 10 {
      var dm, dn := Decimal(m), Decimal(n);
      assert dm[|dm| - 1] == Digit(m % 10) && dn[|dn| - 1] == Digit(n % 10);
      if m % 10 == n % 10 {
        DecimalIsInjective(m / 10, n / 10);
        SuffixCancels(Decimal(m / 10), Decimal(n / 10), [Digit(m % 10)]);
      }
    }
  }

  function Value(digits: string): nat
    requires forall i :: 0 <= i < |digits| ==> '0' <= digits[i] <= '9'
  {
    if digits == "" then 0 else 10 * Value(digits[..|digits| - 1]) + (digits[|digits| - 1] as int - '0' as int)
  }

  /** Reading the digits gives the number back. */
  lemma {:induction false} DecimalReads(n: nat)
    ensures Value(Decimal(n)) == n
  {
    if n >= 10 {
      DecimalReads(n / 10);
      SnocInit(Decimal(n / 10), Digit(n % 10));
    } else {
      assert Decimal(n)[..0] == "";
    }
  }
}
