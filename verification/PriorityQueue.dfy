/** The severity-ordered queue of LLM calls: a binary heap with back-pointers, driven by the sift-up and
    sift-down of Go's container/heap.  The functions on sequences of calls are the specification of the
    queue's methods; the theorems about runs of the queue are stated on them. */
module PriorityQueue {
  import opened Text

  /** A queued call.  What a caller fixes when it creates the call is constant; the score and the heap index
      are the queue's. */
  class Call {
    const id: string
    const severity: string
    const requestTime: int
    var severityScore: int
    var index: int

    constructor (id: string, severity: string, requestTime: int)
      ensures this.id == id && this.severity == severity && this.requestTime == requestTime
    {
      this.id, this.severity, this.requestTime := id, severity, requestTime;
      severityScore, index := 0, 0;
    }
  }

  function SeverityToScore(severity: string): int {
    if severity == "critical" then 3 else if severity == "warning" then 2 else 1
  }

  // ---------- The order ----------

  function Score(c: Call): int {
    SeverityToScore(c.severity)
  }

  /** `a` is served strictly before `b`: it is more severe, or as severe and requested earlier. */
  predicate Before(a: Call, b: Call) {
    Score(a) > Score(b) || (Score(a) == Score(b) && a.requestTime < b.requestTime)
  }

  // ---------- Sifting, as container/heap does it ----------

  function Swapped(s: seq<Call>, i: nat, j: nat): (r: seq<Call>)
    requires i < |s| && j < |s|
    ensures |r| == |s|
  {
    s[i := s[j]][j := s[i]]
  }

  function Parent(j: nat): (i: nat)
    ensures i < j || i == j == 0
  {
    if j == 0 then 0 else (j - 1) / 2
  }

  function Up(s: seq<Call>, j: nat): (r: seq<Call>)
    requires j < |s|
    ensures |r| == |s|
    decreases j
  {
    var i := Parent(j);
    if i == j || !Before(s[j], s[i]) then s else Up(Swapped(s, i, j), i)
  }

  /** The child of `i` among the first `n` calls that is served first. */
  function Child(s: seq<Call>, i: nat, n: nat): (j: nat)
    requires 2 * i + 1 < n <= |s|
    ensures i < j < n && Parent(j) == i
    ensures forall k :: 0 < k < n && Parent(k) == i ==> !Before(s[k], s[j])
  {
    if 2 * i + 2 < n && Before(s[2 * i + 2], s[2 * i + 1]) then 2 * i + 2 else 2 * i + 1
  }

  function Down(s: seq<Call>, i: nat, n: nat): (r: seq<Call>)
    requires n <= |s|
    ensures |r| == |s| && r[n..] == s[n..]
    decreases n - i
  {
    if 2 * i + 1 >= n then s
    else
      var j := Child(s, i, n);
      if !Before(s[j], s[i]) then s else Down(Swapped(s, i, j), j, n)
  }

  lemma DownStepwise(s: seq<Call>, i: nat, n: nat)
    requires n <= |s|
    ensures 2 * i + 1 >= n ==> Down(s, i, n) == s
    ensures 2 * i + 1 < n ==>
              var j := Child(s, i, n);
              Down(s, i, n) == if Before(s[j], s[i]) then Down(Swapped(s, i, j), j, n) else s
  {
  }

  function Pushed(s: seq<Call>, c: Call): (r: seq<Call>)
    ensures |r| == |s| + 1
  {
    Up(s + [c], |s|)
  }

  function Popped(s: seq<Call>): (r: seq<Call>)
    requires s != []
    ensures |r| == |s| - 1
  {
    var n := |s| - 1;
    Down(Swapped(s, 0, n), 0, n)[..n]
  }

  // ---------- Heap order ----------

  predicate Ordered(s: seq<Call>) {
    forall i :: 0 < i < |s| ==> !Before(s[i], s[Parent(i)])
  }

  /** Ordered but for the pair of `j` and its parent, with the children of `j` in order with that parent. */
  predicate OrderedBelow(s: seq<Call>, j: nat) {
    && (forall i :: 0 < i < |s| && i != j ==> !Before(s[i], s[Parent(i)]))
    && (forall i :: 0 < i < |s| && Parent(i) == j && j > 0 ==> !Before(s[i], s[Parent(j)]))
  }

  /** Among the first `n`, ordered but for the pairs of `i` and its children, with those children in order
      with the parent of `i`. */
  predicate OrderedAbove(s: seq<Call>, i: nat, n: nat)
    requires n <= |s|
  {
    && (forall k :: 0 < k < n && Parent(k) != i ==> !Before(s[k], s[Parent(k)]))
    && (forall k :: 0 < k < n && Parent(k) == i && i > 0 ==> !Before(s[k], s[Parent(i)]))
  }

  lemma SwapConserves(s: seq<Call>, i: nat, j: nat)
    requires i < |s| && j < |s|
    ensures multiset(Swapped(s, i, j)) == multiset(s)
  {
  }

  lemma UpStep(s: seq<Call>, j: nat)
    requires 0 < j < |s| && OrderedBelow(s, j) && Before(s[j], s[Parent(j)])
    ensures OrderedBelow(Swapped(s, Parent(j), j), Parent(j))
  {
    hide Parent;
  }

  lemma {:induction false} UpRestoresOrder(s: seq<Call>, j: nat)
    requires j < |s| && OrderedBelow(s, j)
    ensures Ordered(Up(s, j)) && multiset(Up(s, j)) == multiset(s)
    decreases j
  {
    hide Parent, Before, OrderedBelow, Swapped;
    var i := Parent(j);
    if i != j && Before(s[j], s[i]) {
      SwapConserves(s, i, j);
      UpStep(s, j);
      UpRestoresOrder(Swapped(s, i, j), i);
    } else {
      OrderedBelowDone(s, j);
    }
  }

  lemma OrderedBelowDone(s: seq<Call>, j: nat)
    requires j < |s| && OrderedBelow(s, j) && (j > 0 ==> !Before(s[j], s[Parent(j)]))
    ensures Ordered(s)
  {
    hide Parent, Before;
  }

  lemma DownStep(s: seq<Call>, i: nat, n: nat)
    requires 2 * i + 1 < n <= |s| && OrderedAbove(s, i, n) && Before(s[Child(s, i, n)], s[i])
    ensures OrderedAbove(Swapped(s, i, Child(s, i, n)), Child(s, i, n), n)
  {
    hide Parent, Child;
  }

  lemma OrderedAboveDone(s: seq<Call>, i: nat, n: nat)
    requires i < n <= |s| && OrderedAbove(s, i, n)
    requires 2 * i + 1 < n ==> !Before(s[Child(s, i, n)], s[i])
    ensures Ordered(s[..n])
  {
    forall k | 0 < k < n && Parent(k) == i ensures !Before(s[k], s[i]) {
      assert 2 * i + 1 < n;
    }
  }

  lemma {:induction false} DownRestoresOrder(s: seq<Call>, i: nat, n: nat)
    requires i < n <= |s| && OrderedAbove(s, i, n)
    ensures Ordered(Down(s, i, n)[..n]) && multiset(Down(s, i, n)) == multiset(s)
    decreases n - i
  {
    hide Parent, Before, OrderedAbove, Child, Swapped;
    if 2 * i + 1 < n && Before(s[Child(s, i, n)], s[i]) {
      SwapConserves(s, i, Child(s, i, n));
      DownStep(s, i, n);
      DownRestoresOrder(Swapped(s, i, Child(s, i, n)), Child(s, i, n), n);
    } else {
      OrderedAboveDone(s, i, n);
    }
  }

  /** In a heap nothing is served before the root. */
  lemma {:induction false} RootIsFirst(s: seq<Call>, i: nat)
    requires Ordered(s) && i < |s|
    ensures !Before(s[i], s[0])
  {
    if i > 0 {
      RootIsFirst(s, Parent(i));
    }
  }

  lemma PushKeepsOrder(s: seq<Call>, c: Call)
    requires Ordered(s)
    ensures Ordered(Pushed(s, c)) && multiset(Pushed(s, c)) == multiset(s) + multiset{c}
  {
    UpRestoresOrder(s + [c], |s|);
  }

  lemma RootGoesFirst(s: seq<Call>, c: Call)
    requires Ordered(s) && c in multiset(s)
    ensures s != [] && !Before(c, s[0])
  {
    assert c in s;
    var i :| 0 <= i < |s| && s[i] == c;
    RootIsFirst(s, i);
  }

  lemma SwappedIsOrderedAbove(s: seq<Call>, n: nat)
    requires Ordered(s) && 0 < n == |s| - 1
    ensures OrderedAbove(Swapped(s, 0, n), 0, n)
  {
    hide Before;
  }

  lemma LastApart(s: seq<Call>, n: nat)
    requires n + 1 == |s|
    ensures s == s[..n] + [s[n]] && multiset(s) == multiset(s[..n]) + multiset{s[n]} && s[n..] == [s[n]]
  {
    InitLast(s);
  }

  /** Popping removes exactly the root and leaves a heap. */
  lemma PopKeepsOrder(s: seq<Call>)
    requires Ordered(s) && s != []
    ensures Ordered(Popped(s)) && multiset(s) == multiset(Popped(s)) + multiset{s[0]}
    ensures Down(Swapped(s, 0, |s| - 1), 0, |s| - 1)[|s| - 1] == s[0]
  {
    var n := |s| - 1;
    var t := Swapped(s, 0, n);
    var d := Down(t, 0, n);
    SwapConserves(s, 0, n);
    LastApart(t, n);
    LastApart(d, n);
    assert d[n] == t[n] == s[0];
    hide Down, Swapped, Ordered, OrderedAbove;
    if n > 0 {
      SwappedIsOrderedAbove(s, n);
      DownRestoresOrder(t, 0, n);
    } else {
      EmptyIsOrdered(d[..0]);
    }
  }

  lemma PopFacts(s: seq<Call>)
    requires Ordered(s) && s != []
    ensures Ordered(Popped(s)) && multiset(s) == multiset(Popped(s)) + multiset{s[0]}
    ensures Down(Swapped(s, 0, |s| - 1), 0, |s| - 1)[|s| - 1] == s[0]
    ensures forall c :: c in s ==> !Before(c, s[0])
  {
    PopKeepsOrder(s);
    forall c | c in s ensures !Before(c, s[0]) {
      RootGoesFirst(s, c);
    }
  }

  lemma EmptyIsOrdered(s: seq<Call>)
    requires s == []
    ensures Ordered(s)
  {
  }

  // ---------- Runs ----------

  datatype Op = Enqueue(call: Call) | Dequeue

  /** The queue and the calls it returned, in order; a Dequeue of an empty queue returns nothing. */
  datatype Run = Run(queue: seq<Call>, served: seq<Call>)

  function Step(r: Run, op: Op): Run {
    match op
    case Enqueue(c) => Run(Pushed(r.queue, c), r.served)
    case Dequeue => if r.queue == [] then r else Run(Popped(r.queue), r.served + [r.queue[0]])
  }

  function Execute(ops: seq<Op>): Run {
    if ops == [] then Run([], []) else Step(Execute(ops[..|ops| - 1]), ops[|ops| - 1])
  }

  function Enqueued(ops: seq<Op>): multiset<Call> {
    if ops == [] then multiset{}
    else
      var before := Enqueued(ops[..|ops| - 1]);
      match ops[|ops| - 1]
      case Enqueue(c) => before + multiset{c}
      case Dequeue => before
  }

  /** Any mix of operations keeps the heap order and neither loses nor invents a call: the calls enqueued are
      those served and those still queued. */
  lemma {:induction false} EveryRunConserves(ops: seq<Op>)
    ensures var r := Execute(ops);
            Ordered(r.queue) && multiset(r.queue) + multiset(r.served) == Enqueued(ops)
  {
    if ops != [] {
      var before := Execute(ops[..|ops| - 1]);
      EveryRunConserves(ops[..|ops| - 1]);
      match ops[|ops| - 1]
      case Enqueue(c) => PushKeepsOrder(before.queue, c);
      case Dequeue => if before.queue != [] { PopKeepsOrder(before.queue); }
    }
  }

  /** After any mix of operations, the next call served is one that no queued call goes before. */
  lemma NextServedIsFirst(ops: seq<Op>, c: Call)
    requires c in Execute(ops).queue
    ensures !Before(c, Execute(ops).queue[0])
  {
    EveryRunConserves(ops);
    var q := Execute(ops).queue;
    var i :| 0 <= i < |q| && q[i] == c;
    RootIsFirst(q, i);
  }

  /** The calls returned by dequeuing until the queue is empty. */
  function Drain(s: seq<Call>): (r: seq<Call>)
    ensures |r| == |s|
    decreases |s|
  {
    if s == [] then [] else [s[0]] + Drain(Popped(s))
  }

  /** Most severe first and, among equally severe calls, in the order of their request times. */
  predicate Sorted(s: seq<Call>) {
    forall i, j :: 0 <= i < j < |s| ==>
      Score(s[i]) >= Score(s[j]) && (Score(s[i]) == Score(s[j]) ==> s[i].requestTime <= s[j].requestTime)
  }

  lemma SortedCons(c: Call, rest: seq<Call>)
    requires Sorted(rest) && forall j :: 0 <= j < |rest| ==> !Before(rest[j], c)
    ensures Sorted([c] + rest)
  {
  }

  lemma RootThenSorted(s: seq<Call>, rest: seq<Call>)
    requires Ordered(s) && s != [] && Sorted(rest) && multiset(s) == multiset(rest) + multiset{s[0]}
    ensures Sorted([s[0]] + rest) && multiset([s[0]] + rest) == multiset(s)
  {
    hide Ordered, Sorted, Before;
    forall j | 0 <= j < |rest| ensures !Before(rest[j], s[0]) {
      assert rest[j] in multiset(rest);
      RootGoesFirst(s, rest[j]);
    }
    SortedCons(s[0], rest);
  }

  /** Draining serves every call once, most severe first and, among equally severe ones, in the order of their
      request times. */
  lemma {:induction false} DrainIsSorted(s: seq<Call>)
    requires Ordered(s)
    ensures multiset(Drain(s)) == multiset(s)
    ensures Sorted(Drain(s))
    decreases |s|
  {
    if s != [] {
      hide Ordered, Popped, Sorted;
      PopKeepsOrder(s);
      DrainIsSorted(Popped(s));
      RootThenSorted(s, Drain(Popped(s)));
    }
  }

  // ---------- The queue object ----------

  datatype QueueStats = QueueStats(total: nat, critical: nat, warning: nat, info: nat)

  class LLMPriorityQueue {
    var heap: seq<Call>

    /** Every queued call carries its score. */
    ghost predicate Scored()
      reads this, heap
    {
      forall i :: 0 <= i < |heap| ==> heap[i].severityScore == Score(heap[i])
    }

    /** Every queued call knows its position. */
    ghost predicate Indexed()
      reads this, heap
    {
      forall i :: 0 <= i < |heap| ==> heap[i].index == i
    }

    ghost predicate Valid()
      reads this, heap
    {
      Scored() && Ordered(heap)
    }

    constructor ()
      ensures Valid() && Indexed() && heap == []
    {
      heap := [];
    }

    predicate Less(i: nat, j: nat)
      requires i < |heap| && j < |heap|
      reads this, heap
    {
      if heap[i].severityScore != heap[j].severityScore then heap[i].severityScore > heap[j].severityScore
      else heap[i].requestTime < heap[j].requestTime
    }

    method Swap(i: nat, j: nat)
      requires i < |heap| && j < |heap|
      modifies this, {heap[i], heap[j]}`index
      ensures heap == Swapped(old(heap), i, j)
      ensures forall i :: 0 <= i < |heap| ==> heap[i] in old(heap)
      ensures old(Scored()) ==> Scored()
      ensures old(Indexed()) ==> Indexed()
    {
      heap := heap[i := heap[j]][j := heap[i]];
      heap[i].index := i;
      heap[j].index := j;
    }

    lemma LessIsBefore(i: nat, j: nat)
      requires i < |heap| && j < |heap| && Scored()
      ensures Less(i, j) <==> Before(heap[i], heap[j])
    {
    }

    /** container/heap's up. */
    method SiftUp(start: nat)
      requires start < |heap| && Scored()
      modifies this, heap`index
      ensures heap == Up(old(heap), start) && Scored()
      ensures old(Indexed()) ==> Indexed()
    {
      var j: nat := start;
      while true
        invariant j < |heap| && Scored() && Up(heap, j) == Up(old(heap), start)
        invariant old(Indexed()) ==> Indexed()
        invariant forall i :: 0 <= i < |heap| ==> heap[i] in old(heap)
        decreases j
      {
        var i: nat := if j == 0 then 0 else (j - 1) / 2;
        if i == j || !Less(j, i) {
          break;
        }
        assert heap[i] in heap && heap[j] in heap;
        Swap(i, j);
        j := i;
      }
    }

    method FirstChild(i: nat, n: nat) returns (j: nat)
      requires 2 * i + 1 < n <= |heap| && Scored()
      ensures j == Child(heap, i, n)
    {
      j := 2 * i + 1;
      if j + 1 < n && Less(j + 1, j) {
        j := j + 1;
      }
    }

    /** container/heap's down. */
    method SiftDown(start: nat, n: nat)
      requires n <= |heap| && Scored()
      modifies this, heap`index
      ensures heap == Down(old(heap), start, n) && Scored()
      ensures forall i :: 0 <= i < |heap| ==> heap[i] in old(heap)
      ensures old(Indexed()) ==> Indexed()
    {
      hide Down, Child, Before, Swapped;
      var i: nat := start;
      while true
        invariant n <= |heap| && Scored() && Down(heap, i, n) == Down(old(heap), start, n)
        invariant old(Indexed()) ==> Indexed()
        invariant forall i :: 0 <= i < |heap| ==> heap[i] in old(heap)
        decreases n - i
      {
        DownStepwise(heap, i, n);
        if 2 * i + 1 >= n {
          break;
        }
        var j := FirstChild(i, n);
        LessIsBefore(j, i);
        if !Less(j, i) {
          break;
        }
        assert heap[i] in heap && heap[j] in heap;
        Swap(i, j);
        i := j;
      }
    }

    method Enqueue(call: Call)
      requires Valid()
      modifies this, heap, call
      ensures Valid() && heap == Pushed(old(heap), call)
      ensures multiset(heap) == multiset(old(heap)) + multiset{call}
      ensures old(Indexed()) ==> (Indexed() <==> call !in old(heap))
    {
      call.severityScore := SeverityToScore(call.severity);
      call.index := |heap|;
      heap := heap + [call];
      SiftUp(|heap| - 1);
      PushKeepsOrder(old(heap), call);
      if Indexed() {
        IndexedMeansDistinct(this);
        DistinctMeansOnce(heap, call);
        assert multiset(heap)[call] == multiset(old(heap))[call] + 1;
      }
    }

    /** Removes and returns the call that is served first, or null from an empty queue. */
    method Dequeue() returns (call: Call?)
      requires Valid()
      modifies this, heap
      ensures Valid()
      ensures old(heap) == [] ==> call == null && heap == []
      ensures old(heap) != [] ==>
        && call == old(heap)[0] && call.index == -1 && heap == Popped(old(heap))
        && multiset(old(heap)) == multiset(heap) + multiset{old(heap)[0]}
        && forall c :: c in old(heap) ==> !Before(c, old(heap)[0])
      ensures old(Indexed()) ==> Indexed() && call !in heap
    {
      if |heap| == 0 {
        return null;
      }
      hide Before, Ordered, Down, Swapped;
      PopFacts(heap);
      ghost var s := heap;
      var n := |heap| - 1;
      Swap(0, n);
      SiftDown(0, n);
      call := PopLast();
      assert heap == Popped(s);
    }

    /** The heap interface's Pop: takes the last call off the slice. */
    method PopLast() returns (call: Call)
      requires heap != [] && Scored()
      modifies this, heap`index
      ensures call == old(heap)[|old(heap)| - 1] && call.index == -1
      ensures heap == old(heap)[..|old(heap)| - 1] && Scored()
      ensures old(Indexed()) ==> Indexed() && call !in heap
    {
      var n := |heap| - 1;
      call := heap[n];
      assert call in heap;
      call.index := -1;
      heap := heap[..n];
    }

    method Peek() returns (call: Call?)
      requires Valid()
      ensures heap == [] ==> call == null
      ensures heap != [] ==> call == heap[0] && forall c :: c in heap ==> !Before(c, heap[0])
    {
      if |heap| == 0 {
        return null;
      }
      forall c | c in heap ensures !Before(c, heap[0]) {
        RootGoesFirst(heap, c);
      }
      return heap[0];
    }

    method Stats() returns (stats: QueueStats)
      ensures stats.total == |heap| == stats.critical + stats.warning + stats.info
      ensures stats.critical == Count(heap, "critical") && stats.warning == Count(heap, "warning")
    {
      stats := QueueStats(|heap|, 0, 0, 0);
      for i := 0 to |heap|
        invariant stats.total == |heap| && i == stats.critical + stats.warning + stats.info
        invariant stats.critical == Count(heap[..i], "critical") && stats.warning == Count(heap[..i], "warning")
      {
        assert heap[..i + 1][..i] == heap[..i];
        match heap[i].severity {
          case "critical" => stats := stats.(critical := stats.critical + 1);
          case "warning" => stats := stats.(warning := stats.warning + 1);
          case _ => stats := stats.(info := stats.info + 1);
        }
      }
      assert heap[..|heap|] == heap;
    }
  }

  function Count(s: seq<Call>, severity: string): nat {
    if s == [] then 0
    else Count(s[..|s| - 1], severity) + (if s[|s| - 1].severity == severity then 1 else 0)
  }

  predicate SameClass(a: Call, b: Call) {
    (a.severity == "critical" <==> b.severity == "critical") && (a.severity == "warning" <==> b.severity == "warning")
  }

  /** In terms of the severities themselves: draining serves critical calls before warnings, warnings before all other
      calls, and calls of one class in the order of their request times. */
  lemma DrainServesBySeverity(s: seq<Call>, i: nat, j: nat)
    requires Ordered(s) && i < j < |s|
    ensures var a, b := Drain(s)[i], Drain(s)[j];
            && (b.severity == "critical" ==> a.severity == "critical")
            && (b.severity == "warning" ==> a.severity == "critical" || a.severity == "warning")
            && (SameClass(a, b) ==> a.requestTime <= b.requestTime)
  {
    DrainIsSorted(s);
  }

  lemma {:induction false} DistinctMeansOnce(s: seq<Call>, c: Call)
    requires forall i, j :: 0 <= i < j < |s| ==> s[i] != s[j]
    ensures multiset(s)[c] <= 1
  {
    if s != [] {
      var n := |s| - 1;
      LastApart(s, n);
      DistinctMeansOnce(s[..n], c);
      assert s[n] !in s[..n];
    }
  }

  /** The back-pointers can only be right while no call is queued twice. */
  lemma IndexedMeansDistinct(q: LLMPriorityQueue)
    requires q.Indexed()
    ensures forall i, j :: 0 <= i < j < |q.heap| ==> q.heap[i] != q.heap[j]
  {
    forall i, j | 0 <= i < j < |q.heap| ensures q.heap[i] != q.heap[j] {
      assert q.heap[i].index == i && q.heap[j].index == j;
    }
  }
}
