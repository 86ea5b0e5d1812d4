/** Redirecting the workers of a dead Overlord: one goroutine per reachable worker, two shared counters, one
    mutex, and a final wait.

    Each counter update is three steps under the mutex - acquire, read, write - so that an interleaving could
    lose an update if the mutex did not exclude it.  A worker without an address is counted as failed by the
    main loop itself, which goes on only when that update is done. */
module FleetRedirect {
  import opened Text
  import Fleet

  /** Where the work for one worker stands.  `ok` is whether the worker accepted the redirect. */
  datatype Pc =
    | NotStarted
    | Calling
    | Waiting(ok: bool)
    | Locked(ok: bool)
    | Loaded(ok: bool, value: nat)
    | Stored(ok: bool)
    | Finished(ok: bool)

  datatype Lock = Free | HeldBy(task: nat)

  /** `started` is the main loop's index. */
  datatype State = State(
    started: nat, tasks: seq<Pc>, lock: Lock, redirected: nat, failed: nat, returned: bool)

  /** The steps; each names the worker it is about.  A call that cannot connect, fails or is refused ends with
      ok = false. */
  datatype Action =
    | Start(k: nat)
    | CallEnds(k: nat, ok: bool)
    | Acquire(k: nat)
    | Load(k: nat)
    | Store(k: nat)
    | Release(k: nat)
    | Return

  function Init(n: nat): State {
    State(0, seq(n, _ => NotStarted), Free, 0, 0, false)
  }

  /** Whether a step may run; `addrs` are the workers' addresses. */
  predicate Enabled(addrs: seq<string>, s: State, a: Action)
    requires |s.tasks| == |addrs|
  {
    !s.returned &&
    match a
    case Start(k) =>
      k == s.started < |addrs| && (k > 0 && addrs[k - 1] == "" ==> s.tasks[k - 1].Finished?)
    case CallEnds(k, _) => k < |addrs| && s.tasks[k].Calling?
    case Acquire(k) => k < |addrs| && s.tasks[k].Waiting? && s.lock.Free?
    case Load(k) => k < |addrs| && s.tasks[k].Locked?
    case Store(k) => k < |addrs| && s.tasks[k].Loaded?
    case Release(k) => k < |addrs| && s.tasks[k].Stored?
    case Return => s.started == |addrs| && forall k :: 0 <= k < |addrs| ==> s.tasks[k].Finished?
  }

  function Step(addrs: seq<string>, s: State, a: Action): (t: State)
    requires |s.tasks| == |addrs| && Enabled(addrs, s, a)
    ensures |t.tasks| == |addrs|
  {
    match a
    case Start(k) =>
      s.(started := k + 1, tasks := s.tasks[k := if addrs[k] == "" then Waiting(false) else Calling])
    case CallEnds(k, ok) => s.(tasks := s.tasks[k := Waiting(ok)])
    case Acquire(k) => s.(tasks := s.tasks[k := Locked(s.tasks[k].ok)], lock := HeldBy(k))
    case Load(k) =>
      var ok := s.tasks[k].ok;
      s.(tasks := s.tasks[k := Loaded(ok, if ok then s.redirected else s.failed)])
    case Store(k) =>
      var Loaded(ok, value) := s.tasks[k];
      var t := s.(tasks := s.tasks[k := Stored(ok)]);
      if ok then t.(redirected := value + 1) else t.(failed := value + 1)
    case Release(k) => s.(tasks := s.tasks[k := Finished(s.tasks[k].ok)], lock := Free)
    case Return => s.(returned := true)
  }

  /** The states that some interleaving reaches. */
  predicate Runs(addrs: seq<string>, run: seq<Action>)
    decreases |run|, 0
  {
    run == [] ||
    (Runs(addrs, run[..|run| - 1]) && Enabled(addrs, After(addrs, run[..|run| - 1]), run[|run| - 1]))
  }

  function After(addrs: seq<string>, run: seq<Action>): (s: State)
    requires Runs(addrs, run)
    ensures |s.tasks| == |addrs|
    decreases |run|, 1
  {
    if run == [] then Init(|addrs|)
    else Step(addrs, After(addrs, run[..|run| - 1]), run[|run| - 1])
  }

  // ---------- The invariant ----------

  predicate Counted(pc: Pc, ok: bool) {
    (pc.Stored? || pc.Finished?) && pc.ok == ok
  }

  function Count(tasks: seq<Pc>, ok: bool): nat {
    if tasks == [] then 0
    else Count(tasks[..|tasks| - 1], ok) + (if Counted(tasks[|tasks| - 1], ok) then 1 else 0)
  }

  lemma {:induction false} CountUpdate(tasks: seq<Pc>, k: nat, pc: Pc, ok: bool)
    requires k < |tasks|
    ensures Count(tasks[k := pc], ok)
         == Count(tasks, ok) - (if Counted(tasks[k], ok) then 1 else 0) + (if Counted(pc, ok) then 1 else 0)
  {
    var n := |tasks| - 1;
    if k < n {
      CountUpdate(tasks[..n], k, pc, ok);
      assert tasks[k := pc][..n] == tasks[..n][k := pc];
    } else {
      assert tasks[k := pc][..n] == tasks[..n];
    }
  }

  predicate Holds(pc: Pc) {
    pc.Locked? || pc.Loaded? || pc.Stored?
  }

  /** Only the holder of the mutex is inside, what it read is still current, the counters count exactly the
      finished updates, and a worker without an address is never asked. */
  predicate Inv(addrs: seq<string>, s: State) {
    && |s.tasks| == |addrs| && s.started <= |addrs|
    && (forall k :: 0 <= k < |addrs| ==> (Holds(s.tasks[k]) <==> s.lock == HeldBy(k)))
    && (forall k :: 0 <= k < |addrs| && s.tasks[k].Loaded? ==>
          s.tasks[k].value == if s.tasks[k].ok then s.redirected else s.failed)
    && (forall k :: s.started <= k < |addrs| ==> s.tasks[k].NotStarted?)
    && (forall k :: 0 <= k < s.started ==> !s.tasks[k].NotStarted?)
    && (forall k :: 0 <= k < s.started && addrs[k] == "" ==> !s.tasks[k].Calling? && !s.tasks[k].ok)
    && s.redirected == Count(s.tasks, true) && s.failed == Count(s.tasks, false)
    && (s.returned ==> s.started == |addrs| && forall k :: 0 <= k < |addrs| ==> s.tasks[k].Finished?)
  }

  lemma {:induction false} InitCounts(tasks: seq<Pc>, ok: bool)
    requires forall k :: 0 <= k < |tasks| ==> tasks[k].NotStarted?
    ensures Count(tasks, ok) == 0
  {
    if tasks != [] {
      InitCounts(tasks[..|tasks| - 1], ok);
    }
  }

  lemma StepKeepsInv(addrs: seq<string>, s: State, a: Action)
    requires Inv(addrs, s) && Enabled(addrs, s, a)
    ensures Inv(addrs, Step(addrs, s, a))
  {
    hide Count;
    if !a.Return? {
      StepCounts(addrs, s, a);
    }
    match a
    case Start(_) => StartKeepsInv(addrs, s, a);
    case Store(_) => StoreKeepsInv(addrs, s, a);
    case _ =>
  }

  lemma StepCounts(addrs: seq<string>, s: State, a: Action)
    requires Inv(addrs, s) && Enabled(addrs, s, a) && !a.Return?
    ensures var t := Step(addrs, s, a);
            && t.redirected == Count(t.tasks, true) && t.failed == Count(t.tasks, false)
  {
    hide Count;
    var pc := Step(addrs, s, a).tasks[a.k];
    CountUpdate(s.tasks, a.k, pc, true);
    CountUpdate(s.tasks, a.k, pc, false);
  }

  lemma StartKeepsInv(addrs: seq<string>, s: State, a: Action)
    requires Inv(addrs, s) && Enabled(addrs, s, a) && a.Start?
    ensures Inv(addrs, Step(addrs, s, a))
  {
    hide Count;
    StepCounts(addrs, s, a);
  }

  lemma StoreKeepsInv(addrs: seq<string>, s: State, a: Action)
    requires Inv(addrs, s) && Enabled(addrs, s, a) && a.Store?
    ensures Inv(addrs, Step(addrs, s, a))
  {
    hide Count;
    StepCounts(addrs, s, a);
  }

  lemma {:induction false} EveryRunKeepsInv(addrs: seq<string>, run: seq<Action>)
    requires Runs(addrs, run)
    ensures Inv(addrs, After(addrs, run))
    decreases |run|
  {
    hide Inv, Step, Enabled;
    if run == [] {
      InitHasInv(addrs);
    } else {
      var before := run[..|run| - 1];
      EveryRunKeepsInv(addrs, before);
      StepKeepsInv(addrs, After(addrs, before), run[|run| - 1]);
    }
  }

  lemma InitHasInv(addrs: seq<string>)
    ensures Inv(addrs, Init(|addrs|))
  {
    InitCounts(Init(|addrs|).tasks, true);
    InitCounts(Init(|addrs|).tasks, false);
  }

  /** How many workers ended with the given outcome. */
  function Outcomes(tasks: seq<Pc>, ok: bool): nat {
    if tasks == [] then 0
    else
      Outcomes(tasks[..|tasks| - 1], ok)
      + (if tasks[|tasks| - 1].Finished? && tasks[|tasks| - 1].ok == ok then 1 else 0)
  }

  lemma {:induction false} FinishedCounts(tasks: seq<Pc>)
    requires forall k :: 0 <= k < |tasks| ==> tasks[k].Finished?
    ensures Count(tasks, true) == Outcomes(tasks, true) && Count(tasks, false) == Outcomes(tasks, false)
    ensures Outcomes(tasks, true) + Outcomes(tasks, false) == |tasks|
  {
    if tasks != [] {
      FinishedCounts(tasks[..|tasks| - 1]);
    }
  }

  /** Under every interleaving, when the redirect returns, the two counters are the numbers of workers that
      accepted and that did not, they add up to the number of workers, and every worker without an address is
      among the failed ones. */
  lemma RedirectCountsEveryWorker(addrs: seq<string>, run: seq<Action>)
    requires Runs(addrs, run) && After(addrs, run).returned
    ensures var s := After(addrs, run);
            && s.redirected + s.failed == |addrs|
            && s.redirected == Outcomes(s.tasks, true) && s.failed == Outcomes(s.tasks, false)
            && forall k :: 0 <= k < |addrs| ==> s.tasks[k].Finished? && (addrs[k] == "" ==> !s.tasks[k].ok)
  {
    EveryRunKeepsInv(addrs, run);
    FinishedCounts(After(addrs, run).tasks);
  }

  // ---------- Who accepted ----------

  /** How many of the first n workers accepted in some step of the run. */
  function Accepted(run: seq<Action>, n: nat): nat {
    if n == 0 then 0 else Accepted(run, n - 1) + (if CallEnds(n - 1, true) in run then 1 else 0)
  }

  predicate Unanswered(pc: Pc) {
    pc.NotStarted? || pc.Calling?
  }

  lemma {:induction false} AnswersAreKept(addrs: seq<string>, run: seq<Action>, k: nat)
    requires Runs(addrs, run) && k < |addrs|
    ensures var pc := After(addrs, run).tasks[k];
            CallEnds(k, true) in run <==> !Unanswered(pc) && pc.ok
    decreases |run|
  {
    if run != [] {
      var before, a := run[..|run| - 1], run[|run| - 1];
      AnswersAreKept(addrs, before, k);
      EveryRunKeepsInv(addrs, before);
      InitLast(run);
      AnswerStep(addrs, After(addrs, before), a, k);
    }
  }

  lemma AnswerStep(addrs: seq<string>, s: State, a: Action, k: nat)
    requires Inv(addrs, s) && Enabled(addrs, s, a) && k < |addrs|
    ensures var pc, next := s.tasks[k], Step(addrs, s, a).tasks[k];
            if a == CallEnds(k, true) then !Unanswered(next) && next.ok
            else (!Unanswered(next) && next.ok) == (!Unanswered(pc) && pc.ok)
  {
    hide Count;
  }

  lemma {:induction false} OutcomesAreAccepted(addrs: seq<string>, run: seq<Action>, n: nat)
    requires Runs(addrs, run) && n <= |addrs|
    requires forall k :: 0 <= k < |addrs| ==> After(addrs, run).tasks[k].Finished?
    ensures Outcomes(After(addrs, run).tasks[..n], true) == Accepted(run, n)
  {
    hide After;
    if n > 0 {
      OutcomesAreAccepted(addrs, run, n - 1);
      AnswersAreKept(addrs, run, n - 1);
      PrefixStep(After(addrs, run).tasks, n - 1);
    }
  }

  /** Under every interleaving, the number returned as redirected is the number of workers whose call ended with their
      consent, and all others are returned as failed. */
  lemma RedirectedAreTheAccepting(addrs: seq<string>, run: seq<Action>)
    requires Runs(addrs, run) && After(addrs, run).returned
    ensures var s := After(addrs, run);
            s.redirected == Accepted(run, |addrs|) && s.failed == |addrs| - Accepted(run, |addrs|)
  {
    hide After;
    RedirectCountsEveryWorker(addrs, run);
    OutcomesAreAccepted(addrs, run, |addrs|);
    WholePrefix(After(addrs, run).tasks);
  }

  function Addresses(workers: seq<Fleet.Worker>): (addrs: seq<string>)
    ensures |addrs| == |workers| && forall i :: 0 <= i < |workers| ==> addrs[i] == workers[i].addr
  {
    seq(|workers|, i requires 0 <= i < |workers| => workers[i].addr)
  }

  /** After any history of the fleet and under any interleaving of the redirect, from the lookup of the two
      Overlords to the return: (0, 0) if one of them has been removed, and otherwise redirected + failed is the
      number of workers on the last pulled list.  That is the worker count that a registered dead Overlord last
      reported if and only if the two agree. */
  lemma RedirectMatchesReportIff(es: seq<Fleet.Event>, dead: string, target: string, run: seq<Action>)
    requires var addrs := Addresses(Fleet.ToRedirect(Fleet.After(es), dead, target));
             Runs(addrs, run) && After(addrs, run).returned
    ensures var f := Fleet.After(es);
            var s := After(Addresses(Fleet.ToRedirect(f, dead, target)), run);
            var pulled := if dead in f && target in f then |Fleet.PulledWorkers(es, dead)| else 0;
            && s.redirected + s.failed == pulled
            && (dead !in f || target !in f ==> s.redirected == 0 && s.failed == 0)
            && (dead in f ==>
                  (s.redirected + s.failed == f[dead].workerCount <==> Fleet.ReportedCount(es, dead) == pulled))
  {
    var addrs := Addresses(Fleet.ToRedirect(Fleet.After(es), dead, target));
    RedirectCountsEveryWorker(addrs, run);
    Fleet.CachedIsLastReported(es, dead);
  }

  /** Three workers were reported, nobody had asked for their addresses yet, and (0, 0) is returned. */
  lemma ReportedWorkersAreLost(run: seq<Action>)
    requires var f := Fleet.After(Fleet.NeverPulled());
             var addrs := Addresses(Fleet.ToRedirect(f, "a", "b"));
             Runs(addrs, run) && After(addrs, run).returned
    ensures var f := Fleet.After(Fleet.NeverPulled());
            var s := After(Addresses(Fleet.ToRedirect(f, "a", "b")), run);
            "a" in f && f["a"].workerCount == 3 && s.redirected == 0 && s.failed == 0
  {
    Fleet.NeverPulledIsNotRedirected();
    RedirectCountsEveryWorker(Addresses(Fleet.ToRedirect(Fleet.After(Fleet.NeverPulled()), "a", "b")), run);
  }

  /** The redirect cannot get stuck: until it has returned, some step is enabled. */
  lemma SomeStepIsEnabled(addrs: seq<string>, run: seq<Action>) returns (a: Action)
    requires Runs(addrs, run) && !After(addrs, run).returned
    ensures Enabled(addrs, After(addrs, run), a)
  {
    var s := After(addrs, run);
    EveryRunKeepsInv(addrs, run);
    if s.lock.HeldBy? && s.lock.task < |addrs| {
      var k := s.lock.task;
      assert Holds(s.tasks[k]);
      return if s.tasks[k].Locked? then Load(k) else if s.tasks[k].Loaded? then Store(k) else Release(k);
    }
    if k :| 0 <= k < |addrs| && s.tasks[k].Calling? {
      return CallEnds(k, true);
    }
    if k :| 0 <= k < |addrs| && s.tasks[k].Waiting? {
      LockIsHeldByATask(addrs, run);
      return Acquire(k);
    }
    assert forall k :: 0 <= k < s.started ==> s.tasks[k].Finished?;
    return if s.started < |addrs| then Start(s.started) else Return;
  }

  lemma {:induction false} LockIsHeldByATask(addrs: seq<string>, run: seq<Action>)
    requires Runs(addrs, run)
    ensures After(addrs, run).lock.HeldBy? ==> After(addrs, run).lock.task < |addrs|
    decreases |run|
  {
    if run != [] {
      LockIsHeldByATask(addrs, run[..|run| - 1]);
    }
  }

  // ---------- The redirect ends ----------

  /** How many steps a worker's task has behind it; a worker without an address skips the call. */
  function Done(pc: Pc): nat {
    match pc
    case NotStarted => 0
    case Calling => 1
    case Waiting(_) => 2
    case Locked(_) => 3
    case Loaded(_, _) => 4
    case Stored(_) => 5
    case Finished(_) => 6
  }

  function Work(tasks: seq<Pc>): (n: nat)
    ensures n <= 6 * |tasks|
  {
    if tasks == [] then 0 else Work(tasks[..|tasks| - 1]) + Done(tasks[|tasks| - 1])
  }

  lemma {:induction false} WorkUpdate(tasks: seq<Pc>, k: nat, pc: Pc)
    requires k < |tasks|
    ensures Work(tasks[k := pc]) == Work(tasks) - Done(tasks[k]) + Done(pc)
  {
    var n := |tasks| - 1;
    if k < n {
      WorkUpdate(tasks[..n], k, pc);
      assert tasks[k := pc][..n] == tasks[..n][k := pc];
    } else {
      assert tasks[k := pc][..n] == tasks[..n];
    }
  }

  lemma StepWorks(addrs: seq<string>, s: State, a: Action)
    requires Inv(addrs, s) && Enabled(addrs, s, a)
    ensures var t := Step(addrs, s, a);
            if a.Return? then t.returned && t.tasks == s.tasks && !s.returned
            else Work(t.tasks) > Work(s.tasks) && t.returned == s.returned
  {
    hide Work, Count;
    if !a.Return? {
      WorkUpdate(s.tasks, a.k, Step(addrs, s, a).tasks[a.k]);
    }
  }

  /** No interleaving takes more than six steps for each worker and the return.  As long as it has not returned some
      step is enabled, so every redirect that goes on for as long as it can returns. */
  lemma {:induction false} EveryRunIsShort(addrs: seq<string>, run: seq<Action>)
    requires Runs(addrs, run)
    ensures var s := After(addrs, run);
            && |run| <= Work(s.tasks) + (if s.returned then 1 else 0)
            && |run| <= 6 * |addrs| + 1
    decreases |run|
  {
    hide Inv, Step, Enabled, Work;
    if run != [] {
      var before := run[..|run| - 1];
      EveryRunIsShort(addrs, before);
      EveryRunKeepsInv(addrs, before);
      StepWorks(addrs, After(addrs, before), run[|run| - 1]);
    }
  }

  /** A run that cannot be continued has returned. */
  lemma MaximalRunReturns(addrs: seq<string>, run: seq<Action>)
    requires Runs(addrs, run) && forall a :: !Enabled(addrs, After(addrs, run), a)
    ensures After(addrs, run).returned
  {
    if !After(addrs, run).returned {
      var a := SomeStepIsEnabled(addrs, run);
    }
  }
}
