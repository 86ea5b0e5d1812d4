/** The steps of a diagnosis trace: generated hierarchical IDs, the walk over ancestors, and the accounting of
    tokens without counting any twice. */
module TraceSteps {
  import opened Text

  datatype Token = Token(
    input: int, output: int, thinking: int, cacheCreation: int, cacheRead: int, total: int,
    estContext: int, estInput: int, estOutput: int, estAfter: int)

  /** A time of zero is Go's zero time. */
  datatype Step = Step(
    id: string, parentId: string, name: string, status: string,
    startedAt: int, endedAt: int, elapsed: int, token: Token)

  // ---------- Generated IDs ----------

  function Children(steps: seq<Step>, parentId: string): nat {
    if steps == [] then 0
    else Children(steps[..|steps| - 1], parentId) + (if steps[|steps| - 1].parentId == parentId then 1 else 0)
  }

  /** fmt's %02d. */
  function TwoDigits(n: nat): string {
    if n < 10 then "0" + Decimal(n) else Decimal(n)
  }

  function NextStepId(steps: seq<Step>, parentId: string): string {
    var n := Children(steps, parentId) + 1;
    if parentId != "" then parentId + "." + Decimal(n) else TwoDigits(n)
  }

  function Normalized(step: Step, fallbackId: string, now: int): Step {
    var ended := if step.startedAt != 0 && step.endedAt == 0 then now else step.endedAt;
    step.(id := if step.id == "" then fallbackId else step.id,
          status := if step.status == "" then "ok" else step.status,
          endedAt := ended,
          elapsed := if step.elapsed == 0 && step.startedAt != 0 && ended != 0 then ended - step.startedAt
                     else step.elapsed)
  }

  function Added(steps: seq<Step>, step: Step, now: int): seq<Step> {
    steps + [Normalized(step, NextStepId(steps, step.parentId), now)]
  }

  /** The position of the first step with the given ID, or |steps|. */
  function Find(steps: seq<Step>, id: string): (i: nat)
    ensures i <= |steps|
    ensures i < |steps| ==> steps[i].id == id
    ensures forall k :: 0 <= k < i ==> steps[k].id != id
  {
    if steps == [] || steps[0].id == id then 0 else 1 + Find(steps[1..], id)
  }

  function Updated(steps: seq<Step>, step: Step, now: int): seq<Step> {
    var i := Find(steps, step.id);
    if step.id == "" || i == |steps| then steps else steps[i := Normalized(step, step.id, now)]
  }

  class Event {
    var inputTokens: int
    var outputTokens: int
    var steps: seq<Step>
    var lastStep: string

    constructor (inputTokens: int, outputTokens: int)
      ensures this.inputTokens == inputTokens && this.outputTokens == outputTokens
      ensures steps == [] && lastStep == ""
    {
      this.inputTokens, this.outputTokens := inputTokens, outputTokens;
      steps, lastStep := [], "";
    }

    method GenerateId(parentId: string) returns (id: string)
      ensures id == NextStepId(steps, parentId)
    {
      var n := 1;
      for i := 0 to |steps|
        invariant n == 1 + Children(steps[..i], parentId)
      {
        PrefixStep(steps, i);
        if steps[i].parentId == parentId {
          n := n + 1;
        }
      }
      WholePrefix(steps);
      if parentId != "" {
        return parentId + "." + Decimal(n);
      }
      return TwoDigits(n);
    }

    method AddStep(step: Step, now: int) returns (added: Step)
      modifies this`steps, this`lastStep
      ensures steps == Added(old(steps), step, now)
      ensures added == steps[|old(steps)|] && lastStep == step.name
    {
      var id := GenerateId(step.parentId);
      added := Normalized(step, id, now);
      steps := steps + [added];
      lastStep := added.name;
    }

    method UpdateStep(step: Step, now: int) returns (found: bool)
      modifies this`steps, this`lastStep
      ensures steps == Updated(old(steps), step, now)
      ensures found <==> step.id != "" && exists i :: 0 <= i < |old(steps)| && old(steps)[i].id == step.id
      ensures lastStep == if found then step.name else old(lastStep)
    {
      if step.id == "" {
        return false;
      }
      var i := 0;
      while i < |steps|
        invariant i <= |steps|
        invariant forall k :: 0 <= k < i ==> steps[k].id != step.id
      {
        if steps[i].id == step.id {
          assert i == Find(steps, step.id);
          steps := steps[i := Normalized(step, step.id, now)];
          lastStep := step.name;
          return true;
        }
        i := i + 1;
      }
      assert Find(steps, step.id) == |steps|;
      return false;
    }

    /** Sums the actual tokens of the steps without a token-bearing ancestor.  TotalEndsIff says for which
        steps the loops end. */
    method TotalTokens() returns (total: int)
      requires AllWalksEnd(steps)
      ensures total == EventTotal(inputTokens, outputTokens, steps)
    {
      var stepActual, stepEstimated := 0, 0;
      var parents, actualById := IndexParents();
      for i := 0 to |steps|
        invariant stepActual == CountedActual(steps[..i], IndexOf(steps))
        invariant stepEstimated == EstimatedSum(steps[..i])
      {
        PrefixStep(steps, i);
        var covered := HasActualTokenAncestor(steps[i], parents, actualById);
        if !covered {
          stepActual := stepActual + ActualTotal(steps[i].token);
        }
        stepEstimated := stepEstimated + EstimatedTotal(steps[i].token);
      }
      WholePrefix(steps);
      if inputTokens + outputTokens > 0 {
        return inputTokens + outputTokens;
      }
      if stepActual > 0 {
        return stepActual;
      }
      return stepEstimated;
    }

    method IndexParents() returns (parents: map<string, string>, actualById: map<string, bool>)
      ensures parents == Parents(steps) && actualById == ActualById(steps)
    {
      parents, actualById := map[], map[];
      for i := 0 to |steps|
        invariant parents == Parents(steps[..i]) && actualById == ActualById(steps[..i])
      {
        PrefixStep(steps, i);
        if steps[i].id == "" {
          continue;
        }
        parents := parents[steps[i].id := steps[i].parentId];
        actualById := actualById[steps[i].id := ActualTotal(steps[i].token) > 0];
      }
      WholePrefix(steps);
    }
  }

  // ---------- Runs ----------

  datatype Op = Add(step: Step, now: int) | Update(step: Step, now: int)

  function Execute(ops: seq<Op>): seq<Step> {
    if ops == [] then []
    else
      var before := Execute(ops[..|ops| - 1]);
      match ops[|ops| - 1]
      case Add(step, now) => Added(before, step, now)
      case Update(step, now) => Updated(before, step, now)
  }

  /** Which steps of the run got their ID from AddStep rather than from the caller. */
  function Origins(ops: seq<Op>): (generated: seq<bool>)
    ensures |generated| == |Execute(ops)|
  {
    if ops == [] then []
    else
      var before := Origins(ops[..|ops| - 1]);
      match ops[|ops| - 1]
      case Add(step, _) => before + [step.id == ""]
      case Update(_, _) => before
  }

  /** An update keeps the ParentID of the step it replaces. */
  predicate KeepsParents(ops: seq<Op>) {
    ops == [] ||
    var before := Execute(ops[..|ops| - 1]);
    && KeepsParents(ops[..|ops| - 1])
    && match ops[|ops| - 1]
       case Add(_, _) => true
       case Update(step, _) =>
         var i := Find(before, step.id);
         i < |before| ==> before[i].parentId == step.parentId
  }

  /** Every ID is left to AddStep. */
  predicate GeneratesIds(ops: seq<Op>) {
    KeepsParents(ops) && forall k :: 0 <= k < |ops| && ops[k].Add? ==> ops[k].step.id == ""
  }

  /** The step carries the ID that AddStep generates when the steps before it are there. */
  predicate GeneratedAt(steps: seq<Step>, i: nat)
    requires i < |steps|
  {
    steps[i].id == NextStepId(steps[..i], steps[i].parentId)
  }

  predicate Generated(steps: seq<Step>) {
    forall i :: 0 <= i < |steps| ==> GeneratedAt(steps, i)
  }

  lemma GeneratedPrefix(steps: seq<Step>, n: nat, i: nat)
    requires i < n <= |steps|
    ensures GeneratedAt(steps[..n], i) == GeneratedAt(steps, i)
  {
    assert steps[..n][..i] == steps[..i];
  }

  lemma {:induction false} SameParentsSameChildren(a: seq<Step>, b: seq<Step>, parentId: string)
    requires |a| == |b| && forall i :: 0 <= i < |a| ==> a[i].parentId == b[i].parentId
    ensures Children(a, parentId) == Children(b, parentId)
  {
    if a != [] {
      SameParentsSameChildren(a[..|a| - 1], b[..|b| - 1], parentId);
    }
  }

  lemma UpdateKeepsGenerated(steps: seq<Step>, i: nat, step: Step, k: nat)
    requires i < |steps| && steps[i].id == step.id && steps[i].parentId == step.parentId && k < |steps|
    ensures GeneratedAt(steps[i := step], k) == GeneratedAt(steps, k)
  {
    hide Children, TwoDigits;
    SameParentsSameChildren(steps[..k], steps[i := step][..k], steps[k].parentId);
  }

  /** Whatever IDs the caller mixes in, every ID that AddStep generated stays the one of its position. */
  lemma {:induction false} RunsKeepGenerated(ops: seq<Op>, k: nat)
    requires KeepsParents(ops) && k < |Execute(ops)| && Origins(ops)[k]
    ensures GeneratedAt(Execute(ops), k)
  {
    hide NextStepId, GeneratedAt;
    var before := Execute(ops[..|ops| - 1]);
    if k < |before| {
      RunsKeepGenerated(ops[..|ops| - 1], k);
    }
    match ops[|ops| - 1]
    case Add(step, now) =>
      var after := Added(before, step, now);
      SnocInit(before, after[|before|]);
      if k < |before| {
        GeneratedPrefix(after, |before|, k);
      } else {
        AddedIsGenerated(before, step, now);
      }
    case Update(step, now) =>
      var i := Find(before, step.id);
      if step.id != "" && i < |before| {
        UpdateKeepsGenerated(before, i, Normalized(step, step.id, now), k);
      }
  }

  lemma AddedIsGenerated(steps: seq<Step>, step: Step, now: int)
    requires step.id == ""
    ensures GeneratedAt(Added(steps, step, now), |steps|)
  {
    hide NextStepId;
    SnocInit(steps, Normalized(step, NextStepId(steps, step.parentId), now));
  }

  lemma {:induction false} OriginsAreGenerated(ops: seq<Op>)
    requires GeneratesIds(ops)
    ensures forall k :: 0 <= k < |Execute(ops)| ==> Origins(ops)[k]
  {
    if ops != [] {
      OriginsAreGenerated(ops[..|ops| - 1]);
    }
  }

  // ---------- Distinct and longer than the parent ----------

  predicate Digits(s: string) {
    s != "" && forall i :: 0 <= i < |s| ==> '0' <= s[i] <= '9'
  }

  lemma TwoDigitsIsInjective(m: nat, n: nat)
    requires m != n
    ensures TwoDigits(m) != TwoDigits(n)
    ensures Digits(TwoDigits(m))
  {
    DecimalIsInjective(m, n);
    if m < 10 && n < 10 {
      PrefixCancels("0", Decimal(m), Decimal(n));
    } else if m < 10 {
      LeadingDigit(n);
    } else if n < 10 {
      LeadingDigit(m);
    }
  }

  /** Numbers of two digits and more do not start with zero. */
  lemma {:induction false} LeadingDigit(n: nat)
    requires n >= 1
    ensures Decimal(n)[0] != '0'
  {
    if n >= 10 {
      LeadingDigit(n / 10);
    }
  }

  /** The last dot separates the parent from the number. */
  lemma ChildIdsDiffer(p: string, d: string, q: string, e: string)
    requires Digits(d) && Digits(e) && (p != q || d != e)
    ensures p + "." + d != q + "." + e
  {
    var a, b := p + "." + d, q + "." + e;
    assert a[|p|] == '.' && b[|q|] == '.';
    if |p| < |q| {
      assert |q| < |a| ==> a[|q|] == d[|q| - |p| - 1];
    } else if |q| < |p| {
      assert |p| < |b| ==> b[|p|] == e[|p| - |q| - 1];
    } else if p != q {
      HeadsDiffer(p, q, "." + d, "." + e);
      ConcatAssoc(p, ".", d);
      ConcatAssoc(q, ".", e);
    } else {
      PrefixCancels(p + ".", d, e);
    }
  }

  lemma {:induction false} ChildrenGrow(steps: seq<Step>, i: nat, j: nat, parentId: string)
    requires i < j <= |steps| && steps[i].parentId == parentId
    ensures Children(steps[..i], parentId) < Children(steps[..j], parentId)
    decreases j
  {
    PrefixStep(steps, j - 1);
    if i < j - 1 {
      ChildrenGrow(steps, i, j - 1, parentId);
    }
  }

  lemma RootIdIsNoChildId(n: nat, p: string, d: string)
    ensures TwoDigits(n) != p + "." + d
  {
    TwoDigitsIsInjective(n, n + 1);
    assert (p + "." + d)[|p|] == '.';
  }

  /** No two generated IDs are the same, whatever the other steps of the list are called. */
  lemma GeneratedIdsDistinct(steps: seq<Step>, i: nat, j: nat)
    requires i < j < |steps| && GeneratedAt(steps, i) && GeneratedAt(steps, j)
    ensures steps[i].id != steps[j].id
  {
    var p, q := steps[i].parentId, steps[j].parentId;
    var m, n := Children(steps[..i], p) + 1, Children(steps[..j], q) + 1;
    if p == q {
      ChildrenGrow(steps, i, j, p);
      TwoDigitsIsInjective(m, n);
      DecimalIsInjective(m, n);
    }
    if p != "" && q != "" {
      ChildIdsDiffer(p, Decimal(m), q, Decimal(n));
    } else if p != "" {
      RootIdIsNoChildId(n, p, Decimal(m));
    } else if q != "" {
      RootIdIsNoChildId(m, q, Decimal(n));
    }
  }

  /** In every run, with any IDs chosen by the caller mixed in, no two IDs that AddStep generates coincide. */
  lemma RunsGenerateDistinctIds(ops: seq<Op>, i: nat, j: nat)
    requires KeepsParents(ops) && i < j < |Execute(ops)| && Origins(ops)[i] && Origins(ops)[j]
    ensures Execute(ops)[i].id != Execute(ops)[j].id
  {
    RunsKeepGenerated(ops, i);
    RunsKeepGenerated(ops, j);
    GeneratedIdsDistinct(Execute(ops), i, j);
  }

  predicate Distinct(steps: seq<Step>) {
    && (forall i :: 0 <= i < |steps| ==> steps[i].id != "")
    && (forall i, j :: 0 <= i < j < |steps| ==> steps[i].id != steps[j].id)
  }

  predicate Taken(steps: seq<Step>, id: string) {
    exists i :: 0 <= i < |steps| && steps[i].id == id
  }

  /** The ID under which AddStep stores a step. */
  function IdFor(steps: seq<Step>, step: Step): string {
    if step.id == "" then NextStepId(steps, step.parentId) else step.id
  }

  lemma NextIdIsNotEmpty(steps: seq<Step>, parentId: string)
    ensures NextStepId(steps, parentId) != ""
  {
  }

  /** Exactly when AddStep keeps the IDs distinct: when no step has the chosen or generated one yet. */
  lemma AddKeepsDistinctIff(steps: seq<Step>, step: Step, now: int)
    ensures Distinct(Added(steps, step, now)) <==> Distinct(steps) && !Taken(steps, IdFor(steps, step))
  {
    hide NextStepId;
    NextIdIsNotEmpty(steps, step.parentId);
    var after := Added(steps, step, now);
    assert after[|steps|].id == IdFor(steps, step);
    assert forall i :: 0 <= i < |steps| ==> after[i] == steps[i];
  }

  lemma UpdateKeepsIds(steps: seq<Step>, step: Step, now: int)
    ensures Distinct(Updated(steps, step, now)) == Distinct(steps)
  {
    var after := Updated(steps, step, now);
    assert |after| == |steps| && forall i :: 0 <= i < |steps| ==> after[i].id == steps[i].id;
  }

  /** The k-th operation of the run is no addition whose ID another step has already. */
  predicate FindsIdFree(ops: seq<Op>, k: nat)
    requires k < |ops|
  {
    var before := Execute(ops[..k]);
    ops[k].Add? ==> !Taken(before, IdFor(before, ops[k].step))
  }

  /** A run ends with distinct IDs if and only if every addition found its ID free. */
  lemma {:induction false} RunIsDistinctIff(ops: seq<Op>)
    ensures Distinct(Execute(ops)) <==> forall k :: 0 <= k < |ops| ==> FindsIdFree(ops, k)
  {
    hide Added, Updated, Distinct, Taken, IdFor;
    if ops == [] {
      NoStepsAreDistinct();
    } else {
      var n := |ops| - 1;
      var before := Execute(ops[..n]);
      RunIsDistinctIff(ops[..n]);
      forall k | 0 <= k < n ensures FindsIdFree(ops[..n], k) == FindsIdFree(ops, k) {
        assert ops[..n][..k] == ops[..k];
      }
      match ops[n]
      case Add(step, now) =>
        AddKeepsDistinctIff(before, step, now);
        assert FindsIdFree(ops, n) == !Taken(before, IdFor(before, step));
      case Update(step, now) =>
        UpdateKeepsIds(before, step, now);
        assert FindsIdFree(ops, n);
    }
  }

  lemma NoStepsAreDistinct()
    ensures Distinct([])
  {
  }

  /** A generated ID is longer than the ParentID it was generated under. */
  lemma GeneratedIdsLengthen(steps: seq<Step>, i: nat)
    requires i < |steps| && GeneratedAt(steps, i)
    ensures |steps[i].id| > |steps[i].parentId|
  {
  }

  // ---------- The ancestor walk ----------

  function ActualTotal(t: Token): int {
    if t.total > 0 then t.total else t.input + t.output + t.thinking + t.cacheCreation + t.cacheRead
  }

  function EstimatedTotal(t: Token): int {
    t.estContext + t.estInput + t.estOutput + t.estAfter
  }

  function Parents(steps: seq<Step>): map<string, string> {
    if steps == [] then map[]
    else
      var before, s := Parents(steps[..|steps| - 1]), steps[|steps| - 1];
      if s.id == "" then before else before[s.id := s.parentId]
  }

  function ActualById(steps: seq<Step>): map<string, bool> {
    if steps == [] then map[]
    else
      var before, s := ActualById(steps[..|steps| - 1]), steps[|steps| - 1];
      if s.id == "" then before else before[s.id := ActualTotal(s.token) > 0]
  }

  datatype Index = Index(parents: map<string, string>, actual: map<string, bool>)

  function IndexOf(steps: seq<Step>): Index {
    Index(Parents(steps), ActualById(steps))
  }

  predicate Bearing(p: string, ix: Index) {
    p != "" && p in ix.actual && ix.actual[p]
  }

  /** The walk goes on from `p`: it names a known step without tokens. */
  predicate Passes(p: string, ix: Index) {
    p != "" && !Bearing(p, ix) && p in ix.parents
  }

  /** The walk cut off after n rounds: Running while it has not ended. */
  datatype Walk = Ended(found: bool) | Running

  function WalkFor(n: nat, p: string, ix: Index): Walk {
    if !Passes(p, ix) then Ended(Bearing(p, ix))
    else if n == 0 then Running
    else WalkFor(n - 1, ix.parents[p], ix)
  }

  ghost predicate Ends(p: string, ix: Index) {
    exists n: nat :: WalkFor(n, p, ix).Ended?
  }

  /** The walk that starts at `p` ends at a token-bearing step. */
  ghost predicate Meets(p: string, ix: Index) {
    exists n: nat :: WalkFor(n, p, ix) == Ended(true)
  }

  lemma {:induction false} WalkIsStable(m: nat, n: nat, p: string, ix: Index)
    requires WalkFor(m, p, ix).Ended? && m <= n
    ensures WalkFor(n, p, ix) == WalkFor(m, p, ix)
  {
    if Passes(p, ix) {
      WalkIsStable(m - 1, n - 1, ix.parents[p], ix);
    }
  }

  lemma WalkDecides(n: nat, p: string, ix: Index)
    requires WalkFor(n, p, ix).Ended?
    ensures Meets(p, ix) == WalkFor(n, p, ix).found
  {
    if Meets(p, ix) {
      var m: nat :| WalkFor(m, p, ix) == Ended(true);
      WalkIsStable(m, if m <= n then n else m, p, ix);
      WalkIsStable(n, if m <= n then n else m, p, ix);
    }
  }

  method HasActualTokenAncestor(step: Step, parents: map<string, string>, actualById: map<string, bool>)
    returns (found: bool)
    requires Ends(step.parentId, Index(parents, actualById))
    ensures found == Meets(step.parentId, Index(parents, actualById))
  {
    ghost var ix := Index(parents, actualById);
    ghost var n: nat :| WalkFor(n, step.parentId, ix).Ended?;
    WalkDecides(n, step.parentId, ix);
    ghost var result := WalkFor(n, step.parentId, ix);
    var parentId := step.parentId;
    while parentId != ""
      invariant WalkFor(n, parentId, ix) == result
      decreases n
    {
      if parentId in actualById && actualById[parentId] {
        return true;
      }
      if parentId !in parents {
        return false;
      }
      parentId := parents[parentId];
      n := n - 1;
    }
    return false;
  }

  // ---------- When the walk ends ----------

  /** Known steps without tokens whose parents are all among them: a walk that enters never leaves. */
  predicate Trap(ids: set<string>, ix: Index) {
    forall p :: p in ids ==> Passes(p, ix) && ix.parents[p] in ids
  }

  /** The n-th ID of the chain of parents that starts with `p`; empty from its end on. */
  function Climb(n: nat, p: string, parents: map<string, string>): string {
    if n == 0 then p
    else if p == "" || p !in parents then ""
    else Climb(n - 1, parents[p], parents)
  }

  lemma {:induction false} TrapHolds(n: nat, p: string, ids: set<string>, ix: Index)
    requires Trap(ids, ix) && p in ids
    ensures WalkFor(n, p, ix) == Running
  {
    if n > 0 {
      TrapHolds(n - 1, ix.parents[p], ids, ix);
    }
  }

  lemma {:induction false} RunningPasses(n: nat, p: string, ix: Index, m: nat)
    requires WalkFor(n, p, ix) == Running && m <= n
    ensures Passes(Climb(m, p, ix.parents), ix)
  {
    if m > 0 {
      RunningPasses(n - 1, ix.parents[p], ix, m - 1);
    }
  }

  lemma {:induction false} ClimbAdds(m: nat, n: nat, p: string, parents: map<string, string>)
    ensures Climb(m + n, p, parents) == Climb(n, Climb(m, p, parents), parents)
  {
    if m > 0 {
      if p == "" || p !in parents {
        assert Climb(n, "", parents) == "";
      } else {
        ClimbAdds(m - 1, n, parents[p], parents);
      }
    }
  }

  lemma ClimbStays(n: nat, m: nat, p: string, parents: map<string, string>)
    ensures Climb(n, p, parents) == "" && n <= m ==> Climb(m, p, parents) == ""
  {
    if n <= m {
      ClimbAdds(n, m - n, p, parents);
      assert Climb(m - n, "", parents) == "";
    }
  }

  function Visited(n: nat, p: string, parents: map<string, string>): set<string> {
    if n == 0 then {p} else Visited(n - 1, p, parents) + {Climb(n, p, parents)}
  }

  lemma {:induction false} VisitedHas(n: nat, p: string, parents: map<string, string>, m: nat)
    requires m <= n
    ensures Climb(m, p, parents) in Visited(n, p, parents)
  {
    if m < n {
      VisitedHas(n - 1, p, parents, m);
    } else if n == 0 {
      assert Climb(0, p, parents) == p;
    }
  }

  lemma {:induction false} VisitedFrom(n: nat, p: string, parents: map<string, string>, q: string) returns (m: nat)
    requires q in Visited(n, p, parents)
    ensures m <= n && Climb(m, p, parents) == q
  {
    m := n;
    if Climb(n, p, parents) != q {
      m := VisitedFrom(n - 1, p, parents, q);
    }
  }

  /** A running walk that comes back to an ID it has visited is in a trap. */
  lemma RevisitIsTrap(n: nat, p: string, ix: Index)
    requires WalkFor(n, p, ix) == Running && Climb(n + 1, p, ix.parents) in Visited(n, p, ix.parents)
    ensures Trap(Visited(n, p, ix.parents), ix) && p in Visited(n, p, ix.parents)
  {
    VisitedHas(n, p, ix.parents, 0);
    forall q | q in Visited(n, p, ix.parents)
      ensures Passes(q, ix) && ix.parents[q] in Visited(n, p, ix.parents)
    {
      var m := VisitedFrom(n, p, ix.parents, q);
      RunningPasses(n, p, ix, m);
      ClimbAdds(m, 1, p, ix.parents);
      assert Climb(1, q, ix.parents) == Climb(0, ix.parents[q], ix.parents);
      if m < n {
        VisitedHas(n, p, ix.parents, m + 1);
      }
    }
  }

  /** A walk that runs for n rounds has visited n + 1 IDs, or it runs for ever. */
  lemma {:induction false} VisitedGrows(n: nat, p: string, ix: Index)
    requires WalkFor(n, p, ix) == Running
    ensures Visited(n, p, ix.parents) <= ix.parents.Keys
    ensures |Visited(n, p, ix.parents)| == n + 1 || !Ends(p, ix)
  {
    RunningPasses(n, p, ix, n);
    if n > 0 {
      if WalkFor(n - 1, p, ix).Ended? {
        WalkIsStable(n - 1, n, p, ix);
      }
      VisitedGrows(n - 1, p, ix);
      if Climb(n, p, ix.parents) in Visited(n - 1, p, ix.parents) {
        RevisitIsTrap(n - 1, p, ix);
        TrapNeverEnds(p, Visited(n - 1, p, ix.parents), ix);
      }
    }
  }

  lemma TrapNeverEnds(p: string, ids: set<string>, ix: Index)
    requires Trap(ids, ix) && p in ids
    ensures !Ends(p, ix)
  {
    if Ends(p, ix) {
      var n: nat :| WalkFor(n, p, ix).Ended?;
      TrapHolds(n, p, ids, ix);
    }
  }

  lemma SubsetIsSmaller(a: set<string>, b: set<string>)
    requires a <= b
    ensures |a| <= |b|
  {
    assert b == a + (b - a);
  }

  /** Exactly when the walk ends: when it has ended after as many rounds as there are known IDs. */
  lemma WalkEndsIffSoon(p: string, ix: Index)
    ensures Ends(p, ix) <==> WalkFor(|ix.parents|, p, ix).Ended?
  {
    var n := |ix.parents|;
    if WalkFor(n, p, ix) == Running {
      VisitedGrows(n, p, ix);
      SubsetIsSmaller(Visited(n, p, ix.parents), ix.parents.Keys);
      assert |ix.parents.Keys| == n;
    }
  }

  /** Exactly when the walk runs for ever: when it starts in a trap. */
  lemma WalkEndsIffNoTrap(p: string, ix: Index)
    ensures Ends(p, ix) <==> forall ids :: Trap(ids, ix) ==> p !in ids
  {
    forall ids | Trap(ids, ix) && p in ids ensures !Ends(p, ix) {
      TrapNeverEnds(p, ids, ix);
    }
    if !Ends(p, ix) {
      var ids := set q | q in ix.parents && !Ends(q, ix);
      forall q: string | !Ends(q, ix) ensures Passes(q, ix) && !Ends(ix.parents[q], ix) {
        EndsStep(q, ix);
      }
      assert Trap(ids, ix) && p in ids;
    }
  }

  lemma EndsStep(p: string, ix: Index)
    ensures !Ends(p, ix) ==> Passes(p, ix) && !Ends(ix.parents[p], ix)
  {
    if !Passes(p, ix) {
      assert WalkFor(0, p, ix).Ended?;
    } else if Ends(ix.parents[p], ix) {
      var n: nat :| WalkFor(n, ix.parents[p], ix).Ended?;
      assert WalkFor(n + 1, p, ix).Ended?;
    }
  }

  ghost predicate AllWalksEnd(steps: seq<Step>) {
    forall i :: 0 <= i < |steps| ==> Ends(steps[i].parentId, IndexOf(steps))
  }

  /** Exactly when the total of an event can be computed, for steps of any origin, chosen, loaded from a file
      or repeated: when no step without tokens lies on a cycle of such steps. */
  lemma TotalEndsIff(steps: seq<Step>)
    ensures AllWalksEnd(steps) <==> forall ids :: Trap(ids, IndexOf(steps)) ==> ids == {}
  {
    var ix := IndexOf(steps);
    if AllWalksEnd(steps) {
      forall ids | Trap(ids, ix) ensures ids == {} {
        if p :| p in ids {
          var i := KeyHasStep(steps, p);
          IndexAt(steps, i);
          TrapNeverEnds(steps[i].parentId, ids, ix);
        }
      }
    }
    forall i | 0 <= i < |steps| && !Ends(steps[i].parentId, ix)
      ensures exists ids :: Trap(ids, ix) && ids != {}
    {
      WalkEndsIffNoTrap(steps[i].parentId, ix);
    }
  }

  /** The smallest case: a step that is its own parent and bears no tokens. */
  lemma SelfParentNeverEnds(step: Step)
    requires step.id != "" && step.parentId == step.id && ActualTotal(step.token) == 0
    ensures !AllWalksEnd(Execute([Add(step, 0)]))
  {
    var steps := [Normalized(step, NextStepId([], step.parentId), 0)];
    assert Execute([Add(step, 0)]) == steps by {
      assert [Add(step, 0)][..0] == [];
      ConcatNil(steps);
    }
    assert steps[..0] == [];
    TrapNeverEnds(step.id, {step.id}, IndexOf(steps));
  }

  // ---------- Walks over generated IDs ----------

  /** Every known ID is longer than its parent's: the walk gets shorter with each step. */
  predicate Shortens(parents: map<string, string>) {
    forall id :: id in parents ==> |parents[id]| < |id|
  }

  lemma {:induction false} GeneratedParentsShorten(steps: seq<Step>)
    requires Generated(steps)
    ensures Shortens(Parents(steps))
  {
    if steps != [] {
      var n := |steps| - 1;
      hide GeneratedAt, ActualTotal;
      forall i | 0 <= i < n ensures GeneratedAt(steps[..n], i) {
        GeneratedPrefix(steps, n, i);
      }
      GeneratedParentsShorten(steps[..n]);
      GeneratedIdsLengthen(steps, n);
    }
  }

  lemma {:induction false} ShorteningEnds(p: string, ix: Index)
    requires Shortens(ix.parents)
    ensures Ends(p, ix) && ChainEnds(p, ix.parents)
    decreases |p|
  {
    if p in ix.parents {
      ShorteningEnds(ix.parents[p], ix);
      EndsStep(p, ix);
      var n: nat :| Climb(n, ix.parents[p], ix.parents) == "";
      assert p != "" ==> Climb(n + 1, p, ix.parents) == "";
      assert Climb(0, "", ix.parents) == "";
    } else {
      assert WalkFor(0, p, ix).Ended?;
      assert Climb(1, p, ix.parents) == "";
    }
  }

  /** Every run that leaves IDs to AddStep has distinct IDs, each longer than its ParentID, and a parent
      relation without cycles, on which every walk ends. */
  lemma RunIsSound(ops: seq<Op>)
    requires GeneratesIds(ops)
    ensures var steps := Execute(ops);
            && Distinct(steps) && AllWalksEnd(steps)
            && (forall p :: ChainEnds(p, Parents(steps)))
            && forall i :: 0 <= i < |steps| ==> |steps[i].id| > |steps[i].parentId|
  {
    var steps := Execute(ops);
    OriginsAreGenerated(ops);
    forall i | 0 <= i < |steps| ensures GeneratedAt(steps, i) && |steps[i].id| > |steps[i].parentId| {
      RunsKeepGenerated(ops, i);
      GeneratedIdsLengthen(steps, i);
    }
    GeneratedParentsShorten(steps);
    forall p: string ensures Ends(p, IndexOf(steps)) && ChainEnds(p, Parents(steps)) {
      ShorteningEnds(p, IndexOf(steps));
    }
    forall i, j | 0 <= i < j < |steps| ensures steps[i].id != steps[j].id {
      GeneratedIdsDistinct(steps, i, j);
    }
  }

  lemma FirstRootId()
    ensures NextStepId([], "") == "01"
  {
    assert TwoDigits(1) == "01";
  }

  lemma OneStep(op: Op)
    requires op.Add?
    ensures Execute([op]) == [Normalized(op.step, NextStepId([], op.step.parentId), op.now)]
  {
    assert [op][..0] == [];
    ConcatNil([Normalized(op.step, NextStepId([], op.step.parentId), op.now)]);
  }

  /** Mixing chosen and generated IDs can repeat one: after a first step that the caller names "02", the next
      root step is generated as "02" as well. */
  lemma ChosenIdsMayCollide(step: Step)
    requires step.id == "02" && step.parentId == ""
    ensures !FindsIdFree([Add(step, 0), Add(step.(id := ""), 0)], 1)
    ensures !Distinct(Execute([Add(step, 0), Add(step.(id := ""), 0)]))
  {
    hide Normalized;
    var ops := [Add(step, 0), Add(step.(id := ""), 0)];
    OneStep(ops[0]);
    assert ops[..1] == [ops[0]];
    var one := Execute(ops[..1]);
    NormalizedKeeps(step, NextStepId([], ""), 0);
    assert one[..0] == [] && Children(one, "") == 1;
    assert TwoDigits(2) == "02";
    assert one[0].id == IdFor(one, ops[1].step);
    RunIsDistinctIff(ops);
  }

  lemma NormalizedKeeps(step: Step, fallbackId: string, now: int)
    ensures Normalized(step, fallbackId, now).parentId == step.parentId
    ensures Normalized(step, fallbackId, now).id == if step.id == "" then fallbackId else step.id
  {
  }

  /** An update that moves a step to another parent frees its number: the next root step gets the same ID, and
      no ID was chosen by the caller. */
  lemma MovedStepsMayCollide(step: Step)
    requires step.id == "" && step.parentId == ""
    ensures var ops := [Add(step, 0), Update(step.(id := "01", parentId := "x"), 0), Add(step, 0)];
            && !KeepsParents(ops[..2]) && Origins(ops) == [true, true] && !Distinct(Execute(ops))
  {
    hide Execute, Origins, KeepsParents, Normalized, FindsIdFree;
    var ops := [Add(step, 0), Update(step.(id := "01", parentId := "x"), 0), Add(step, 0)];
    assert ops[..2] == [ops[0], ops[1]];
    MovedStep(step);
    NumberIsFreed(ops, step);
    RunIsDistinctIff(ops);
  }

  lemma MovedStep(step: Step)
    requires step.id == "" && step.parentId == ""
    ensures var moved := step.(id := "01", parentId := "x");
            var ops := [Add(step, 0), Update(moved, 0)];
            && Execute(ops) == [Normalized(moved, "01", 0)] && Origins(ops) == [true] && !KeepsParents(ops)
  {
    hide Normalized;
    var moved := step.(id := "01", parentId := "x");
    var ops := [Add(step, 0), Update(moved, 0)];
    FirstRootId();
    OneStep(ops[0]);
    NormalizedKeeps(step, "01", 0);
    assert ops[..1] == [ops[0]];
    assert Find(Execute([ops[0]]), "01") == 0;
  }

  lemma NumberIsFreed(ops: seq<Op>, step: Step)
    requires |ops| == 3 && ops[2] == Add(step, 0) && step.id == "" && step.parentId == ""
    requires Origins(ops[..2]) == [true]
    requires Execute(ops[..2]) == [Normalized(step.(id := "01", parentId := "x"), "01", 0)]
    ensures Origins(ops) == [true, true] && !FindsIdFree(ops, 2)
  {
    hide Normalized, Execute;
    var two := Execute(ops[..2]);
    FirstRootId();
    NormalizedKeeps(step.(id := "01", parentId := "x"), "01", 0);
    assert two[..0] == [] && Children(two, "") == 0;
    assert two[0].id == "01" == IdFor(two, step);
  }

  // ---------- Token accounting ----------

  ghost function CountedActual(steps: seq<Step>, ix: Index): int {
    if steps == [] then 0
    else
      var s := steps[|steps| - 1];
      CountedActual(steps[..|steps| - 1], ix) + (if Meets(s.parentId, ix) then 0 else ActualTotal(s.token))
  }

  function EstimatedSum(steps: seq<Step>): int {
    if steps == [] then 0 else EstimatedSum(steps[..|steps| - 1]) + EstimatedTotal(steps[|steps| - 1].token)
  }

  ghost function EventTotal(inputTokens: int, outputTokens: int, steps: seq<Step>): int {
    var stepActual := CountedActual(steps, IndexOf(steps));
    if inputTokens + outputTokens > 0 then inputTokens + outputTokens
    else if stepActual > 0 then stepActual
    else EstimatedSum(steps)
  }

  /** `id` is on the chain of parents that starts at `p`. */
  ghost predicate OnChain(p: string, parents: map<string, string>, id: string) {
    exists n: nat :: Climb(n, p, parents) == id
  }

  /** The chain of parents that starts at `p` comes to an end. */
  ghost predicate ChainEnds(p: string, parents: map<string, string>) {
    exists n: nat :: Climb(n, p, parents) == ""
  }

  /** The step is the one its ID stands for: of several steps with one ID, the last. */
  predicate Named(steps: seq<Step>, i: nat)
    requires i < |steps|
  {
    steps[i].id != "" && forall j :: i < j < |steps| ==> steps[j].id != steps[i].id
  }

  ghost predicate Ancestor(steps: seq<Step>, a: nat, b: nat)
    requires a < |steps| && b < |steps|
  {
    Named(steps, a) && OnChain(steps[b].parentId, Parents(steps), steps[a].id)
  }

  predicate Bears(s: Step) {
    ActualTotal(s.token) > 0
  }

  /** A token-bearing step without a token-bearing ancestor. */
  ghost predicate Topmost(steps: seq<Step>, i: nat)
    requires i < |steps|
  {
    Bears(steps[i]) && forall a :: 0 <= a < |steps| && Bears(steps[a]) ==> !Ancestor(steps, a, i)
  }

  /** The tokens of the topmost token-bearing steps among the first n. */
  ghost function TopmostSum(steps: seq<Step>, n: nat): int
    requires n <= |steps|
  {
    if n == 0 then 0
    else TopmostSum(steps, n - 1) + (if Topmost(steps, n - 1) then ActualTotal(steps[n - 1].token) else 0)
  }

  predicate NonNegative(t: Token) {
    t.input >= 0 && t.output >= 0 && t.thinking >= 0 && t.cacheCreation >= 0 && t.cacheRead >= 0 && t.total >= 0
  }

  predicate AllNonNegative(steps: seq<Step>) {
    forall i :: 0 <= i < |steps| ==> NonNegative(steps[i].token)
  }

  lemma {:induction false} IndexAt(steps: seq<Step>, i: nat)
    requires i < |steps| && Named(steps, i)
    ensures steps[i].id in Parents(steps) && Parents(steps)[steps[i].id] == steps[i].parentId
    ensures steps[i].id in ActualById(steps) && ActualById(steps)[steps[i].id] == Bears(steps[i])
  {
    if i < |steps| - 1 {
      IndexAt(steps[..|steps| - 1], i);
    }
  }

  lemma {:induction false} KeyHasStep(steps: seq<Step>, id: string) returns (i: nat)
    requires id in ActualById(steps) || id in Parents(steps)
    ensures i < |steps| && steps[i].id == id && Named(steps, i)
  {
    i := |steps| - 1;
    if steps[i].id != id || id == "" {
      i := KeyHasStep(steps[..i], id);
    }
  }

  ghost predicate ChainBears(p: string, ix: Index) {
    exists m: nat :: Bearing(Climb(m, p, ix.parents), ix)
  }

  lemma ChainBearsStep(p: string, ix: Index)
    ensures ChainBears(p, ix) <==> Bearing(p, ix) || (p != "" && p in ix.parents && ChainBears(ix.parents[p], ix))
  {
    if Bearing(p, ix) {
      assert Climb(0, p, ix.parents) == p;
    }
    if m: nat :| Bearing(Climb(m, p, ix.parents), ix) && m > 0 {
      assert Bearing(Climb(m - 1, ix.parents[p], ix.parents), ix);
    }
    if p != "" && p in ix.parents && ChainBears(ix.parents[p], ix) {
      var m: nat :| Bearing(Climb(m, ix.parents[p], ix.parents), ix);
      assert Bearing(Climb(m + 1, p, ix.parents), ix);
    }
  }

  /** The walk ends at a token-bearing step exactly if the chain of parents has one, and otherwise the chain
      ends. */
  lemma {:induction false} WalkClimbs(n: nat, p: string, ix: Index)
    requires WalkFor(n, p, ix).Ended?
    ensures WalkFor(n, p, ix).found <==> ChainBears(p, ix)
    ensures !WalkFor(n, p, ix).found ==> ChainEnds(p, ix.parents)
  {
    ChainBearsStep(p, ix);
    if Passes(p, ix) {
      WalkClimbs(n - 1, ix.parents[p], ix);
      if m: nat :| Climb(m, ix.parents[p], ix.parents) == "" {
        assert Climb(m + 1, p, ix.parents) == "";
      }
    } else if !Bearing(p, ix) {
      assert Climb(1, p, ix.parents) == "";
    }
  }

  /** The walk finds an ancestor with tokens exactly when there is one. */
  lemma MeetsIffBearingAncestor(steps: seq<Step>, p: string)
    requires Ends(p, IndexOf(steps))
    ensures Meets(p, IndexOf(steps))
       <==> exists a :: 0 <= a < |steps| && Bears(steps[a]) && Named(steps, a)
                        && OnChain(p, Parents(steps), steps[a].id)
    ensures !Meets(p, IndexOf(steps)) ==> ChainEnds(p, Parents(steps))
  {
    var ix := IndexOf(steps);
    var n: nat :| WalkFor(n, p, ix).Ended?;
    WalkDecides(n, p, ix);
    WalkClimbs(n, p, ix);
    if m: nat :| Bearing(Climb(m, p, ix.parents), ix) {
      var a := KeyHasStep(steps, Climb(m, p, ix.parents));
      IndexAt(steps, a);
      assert OnChain(p, Parents(steps), steps[a].id);
    }
    if a :| 0 <= a < |steps| && Bears(steps[a]) && Named(steps, a) && OnChain(p, Parents(steps), steps[a].id) {
      var m: nat :| Climb(m, p, ix.parents) == steps[a].id;
      IndexAt(steps, a);
      assert Bearing(Climb(m, p, ix.parents), ix);
    }
  }

  lemma {:induction false} CountedIsTopmost(steps: seq<Step>, n: nat)
    requires AllWalksEnd(steps) && AllNonNegative(steps) && n <= |steps|
    ensures CountedActual(steps[..n], IndexOf(steps)) == TopmostSum(steps, n)
  {
    if n > 0 {
      hide Parents, ActualById, OnChain;
      PrefixStep(steps, n - 1);
      CountedIsTopmost(steps, n - 1);
      MeetsIffBearingAncestor(steps, steps[n - 1].parentId);
    }
  }

  lemma ClimbFrom(steps: seq<Step>, a: nat, p: string, m: nat, k: nat)
    requires a < |steps| && Named(steps, a) && Climb(m, p, Parents(steps)) == steps[a].id
    ensures Climb(m + 1 + k, p, Parents(steps)) == Climb(k, steps[a].parentId, Parents(steps))
  {
    IndexAt(steps, a);
    ClimbAdds(m, 1 + k, p, Parents(steps));
  }

  /** Below the end of a chain every token-bearing step is topmost or has a topmost ancestor. */
  lemma {:induction false} EveryBearerIsCovered(steps: seq<Step>, i: nat, n: nat) returns (top: nat)
    requires i < |steps| && Bears(steps[i]) && Climb(n, steps[i].parentId, Parents(steps)) == ""
    ensures top < |steps| && Topmost(steps, top) && (top == i || Ancestor(steps, top, i))
    decreases n
  {
    var p, parents := steps[i].parentId, Parents(steps);
    if Topmost(steps, i) {
      return i;
    }
    var a :| 0 <= a < |steps| && Bears(steps[a]) && Ancestor(steps, a, i);
    var m: nat :| Climb(m, p, parents) == steps[a].id;
    ClimbStays(n, m, p, parents);
    ClimbFrom(steps, a, p, m, n - m - 1);
    top := EveryBearerIsCovered(steps, a, n - m - 1);
    if top != a {
      var k: nat :| Climb(k, steps[a].parentId, parents) == steps[top].id;
      ClimbFrom(steps, a, p, m, k);
    }
  }

  /** A topmost step has a chain of parents that ends. */
  lemma TopmostChainEnds(steps: seq<Step>, top: nat)
    requires AllWalksEnd(steps) && top < |steps| && Topmost(steps, top)
    ensures ChainEnds(steps[top].parentId, Parents(steps))
  {
    MeetsIffBearingAncestor(steps, steps[top].parentId);
  }

  ghost predicate Covered(steps: seq<Step>, i: nat)
    requires i < |steps|
  {
    Topmost(steps, i) || exists top :: 0 <= top < |steps| && Topmost(steps, top) && Ancestor(steps, top, i)
  }

  /** A token-bearing step is counted or has a counted ancestor if and only if its chain of parents ends: on
      a cycle all token-bearing steps cover each other, and none is counted. */
  lemma CoveredIffChainEnds(steps: seq<Step>, i: nat)
    requires AllWalksEnd(steps) && i < |steps| && Bears(steps[i])
    ensures Covered(steps, i) <==> ChainEnds(steps[i].parentId, Parents(steps))
  {
    var p, parents := steps[i].parentId, Parents(steps);
    if ChainEnds(p, parents) {
      var n: nat :| Climb(n, p, parents) == "";
      var top := EveryBearerIsCovered(steps, i, n);
    } else if Topmost(steps, i) {
      TopmostChainEnds(steps, i);
    } else if top :| 0 <= top < |steps| && Topmost(steps, top) && Ancestor(steps, top, i) {
      TopmostChainEnds(steps, top);
      var m: nat :| Climb(m, p, parents) == steps[top].id;
      var k: nat :| Climb(k, steps[top].parentId, parents) == "";
      ClimbFrom(steps, top, p, m, k);
    }
  }

  lemma {:induction false} TopmostSumPositive(steps: seq<Step>, n: nat, top: nat)
    requires top < n <= |steps| && Topmost(steps, top)
    ensures TopmostSum(steps, n) > 0
  {
    TopmostSumNonNegative(steps, n - 1);
    if top < n - 1 {
      TopmostSumPositive(steps, n - 1, top);
    }
  }

  lemma {:induction false} TopmostSumNonNegative(steps: seq<Step>, n: nat)
    requires n <= |steps|
    ensures TopmostSum(steps, n) >= 0
  {
    if n > 0 {
      TopmostSumNonNegative(steps, n - 1);
    }
  }

  lemma {:induction false} NoTopmostNoSum(steps: seq<Step>, n: nat)
    requires n <= |steps| && forall i :: 0 <= i < |steps| ==> !Topmost(steps, i)
    ensures TopmostSum(steps, n) == 0
  {
    if n > 0 {
      NoTopmostNoSum(steps, n - 1);
    }
  }

  /** The total of any event without tokens of its own whose total can be computed at all: exactly the
      topmost token-bearing steps, and the estimates when no token-bearing step has a chain that ends. */
  lemma TotalCountsTopmostSteps(steps: seq<Step>, inputTokens: int, outputTokens: int)
    requires AllWalksEnd(steps) && AllNonNegative(steps) && inputTokens + outputTokens <= 0
    ensures EventTotal(inputTokens, outputTokens, steps)
         == (if exists i :: 0 <= i < |steps| && Bears(steps[i]) && ChainEnds(steps[i].parentId, Parents(steps))
             then TopmostSum(steps, |steps|) else EstimatedSum(steps))
  {
    CountedIsTopmost(steps, |steps|);
    WholePrefix(steps);
    if i :| 0 <= i < |steps| && Bears(steps[i]) && ChainEnds(steps[i].parentId, Parents(steps)) {
      var n: nat :| Climb(n, steps[i].parentId, Parents(steps)) == "";
      var top := EveryBearerIsCovered(steps, i, n);
      TopmostSumPositive(steps, |steps|, top);
    } else {
      forall i | 0 <= i < |steps| ensures !Topmost(steps, i) {
        if Topmost(steps, i) {
          TopmostChainEnds(steps, i);
        }
      }
      NoTopmostNoSum(steps, |steps|);
    }
  }

  /** In a run that leaves IDs to AddStep the total counts the topmost token-bearing steps if there are any. */
  lemma RunTotalCountsTopmostSteps(ops: seq<Op>, inputTokens: int, outputTokens: int)
    requires GeneratesIds(ops) && AllNonNegative(Execute(ops)) && inputTokens + outputTokens <= 0
    ensures var steps := Execute(ops);
            EventTotal(inputTokens, outputTokens, steps)
            == (if exists i :: 0 <= i < |steps| && Bears(steps[i]) then TopmostSum(steps, |steps|)
                else EstimatedSum(steps))
            && forall i :: 0 <= i < |steps| && Bears(steps[i]) ==> Covered(steps, i)
  {
    var steps := Execute(ops);
    RunIsSound(ops);
    TotalCountsTopmostSteps(steps, inputTokens, outputTokens);
    forall i | 0 <= i < |steps| && Bears(steps[i]) ensures Covered(steps, i) {
      CoveredIffChainEnds(steps, i);
    }
  }

  // ---------- Tokens and fields of a step ----------

  function Sum(counts: seq<int>): int {
    if counts == [] then 0 else counts[0] + Sum(counts[1..])
  }

  /** A step's actual tokens are its total, if it has one, and otherwise the sum of its five counts; its estimated ones
      are the sum of the four estimates. */
  lemma StepTokens(t: Token)
    ensures t.total > 0 ==> ActualTotal(t) == t.total
    ensures t.total <= 0 ==> ActualTotal(t) == Sum([t.input, t.output, t.thinking, t.cacheCreation, t.cacheRead])
    ensures EstimatedTotal(t) == Sum([t.estContext, t.estInput, t.estOutput, t.estAfter])
    ensures NonNegative(t) ==>
              (ActualTotal(t) > 0 <==>
                 t.total > 0 || t.input > 0 || t.output > 0 || t.thinking > 0 || t.cacheCreation > 0 || t.cacheRead > 0)
  {
    SumOf5(t.input, t.output, t.thinking, t.cacheCreation, t.cacheRead);
    SumOf4(t.estContext, t.estInput, t.estOutput, t.estAfter);
  }

  lemma SumStep(x: int, counts: seq<int>)
    ensures Sum([x] + counts) == x + Sum(counts)
  {
    assert ([x] + counts)[1..] == counts;
  }

  lemma SumOf4(a: int, b: int, c: int, d: int)
    ensures Sum([a, b, c, d]) == a + b + c + d
  {
    SumStep(a, [b, c, d]);
    SumStep(b, [c, d]);
    SumStep(c, [d]);
    SumStep(d, []);
    assert [a] + [b, c, d] == [a, b, c, d] && [b] + [c, d] == [b, c, d] && [c] + [d] == [c, d] && [d] + [] == [d];
  }

  lemma SumOf5(a: int, b: int, c: int, d: int, e: int)
    ensures Sum([a, b, c, d, e]) == a + b + c + d + e
  {
    SumOf4(b, c, d, e);
    SumStep(a, [b, c, d, e]);
    assert [a] + [b, c, d, e] == [a, b, c, d, e];
  }

  /** Tokens of the event itself come first. */
  lemma EventTokensComeFirst(inputTokens: int, outputTokens: int, steps: seq<Step>)
    requires inputTokens + outputTokens > 0
    ensures EventTotal(inputTokens, outputTokens, steps) == inputTokens + outputTokens
  {
    hide CountedActual, IndexOf;
  }

  /** The number in a generated ID is one more than the number of children that the parent has. */
  lemma NextIdCounts(steps: seq<Step>, parentId: string)
    ensures var n := |ChildPositions(steps, parentId)|;
            NextStepId(steps, parentId) == if parentId == "" then TwoDigits(n + 1) else parentId + "." + Decimal(n + 1)
  {
    ChildrenAreCounted(steps, parentId);
  }

  function ChildPositions(steps: seq<Step>, parentId: string): set<int> {
    set i | 0 <= i < |steps| && steps[i].parentId == parentId
  }

  lemma ChildPositionsStep(steps: seq<Step>, parentId: string)
    requires steps != []
    ensures var n := |steps| - 1;
            var before := ChildPositions(steps[..n], parentId);
            n !in before && ChildPositions(steps, parentId) == if steps[n].parentId == parentId then before + {n} else before
  {
  }

  lemma {:induction false} ChildrenAreCounted(steps: seq<Step>, parentId: string)
    ensures Children(steps, parentId) == |ChildPositions(steps, parentId)|
  {
    hide ChildPositions;
    if steps == [] {
      NoChildren(parentId);
    } else {
      ChildrenAreCounted(steps[..|steps| - 1], parentId);
      ChildPositionsStep(steps, parentId);
    }
  }

  lemma NoChildren(parentId: string)
    ensures ChildPositions([], parentId) == {}
  {
  }

  /** What AddStep keeps of a step and what it fills in. */
  lemma AddedStepIs(steps: seq<Step>, step: Step, now: int)
    ensures var s := Added(steps, step, now)[|steps|];
            && s.name == step.name && s.parentId == step.parentId && s.token == step.token
            && s.startedAt == step.startedAt
            && (step.id != "" ==> s.id == step.id) && (step.status != "" ==> s.status == step.status)
            && (step.status == "" ==> s.status == "ok")
            && s.endedAt == (if step.startedAt != 0 && step.endedAt == 0 then now else step.endedAt)
            && (step.elapsed != 0 || s.startedAt == 0 || s.endedAt == 0 ==> s.elapsed == step.elapsed)
            && (step.elapsed == 0 && s.startedAt != 0 && s.endedAt != 0 ==> s.elapsed == s.endedAt - s.startedAt)
  {
    hide NextStepId;
  }
}
