/** The per-worker LLM call budget and the hooks that drive it.

    Time is an integer count of nanoseconds that each critical section receives as an argument, because
    every method of the budget reads the clock once while it holds the mutex.  The class below is the
    budget as the worker uses it; the functions on `Budget` values are its specification, and the
    theorems speak about whole runs: arbitrary interleavings of the critical sections. */
module LlmBudget {

  const HOUR: int := 3_600_000_000_000
  const DAY: int := 86_400_000_000_000

  datatype Limits = Limits(hourly: int, daily: int, cooldown: int, maxRetry: int)

  datatype Budget = Budget(
    hourlyCalls: int,
    dailyCalls: int,
    hourlyResetAt: int,
    dailyResetAt: int,
    cooldowns: map<string, int>,
    retryCount: map<string, int>,
    degraded: bool)

  /** The answer of a budget check; every refusal carries the numbers its message prints. */
  datatype Verdict =
    | Allowed
    | CoolingDown(remaining: int)
    | RetriesExhausted(failures: int)
    | HourlyLimitReached(calls: int)
    | DailyLimitReached(calls: int)

  const DEFAULT_LIMITS := Limits(10, 30, 30 * 60 * 1_000_000_000, 3)

  /** Midnight of the day that contains `now`; floor division, also before the epoch. */
  function TruncateToDay(now: int): (midnight: int)
    ensures midnight <= now < midnight + DAY
    ensures Midnight(midnight) && Midnight(midnight + DAY)
  {
    now / DAY * DAY
  }

  predicate Midnight(t: int) {
    t % DAY == 0
  }

  function Retries(b: Budget, metric: string): int {
    if metric in b.retryCount then b.retryCount[metric] else 0
  }

  // ---------- Specification of the critical sections ----------

  function Fresh(now: int): Budget {
    Budget(0, 0, now + HOUR, TruncateToDay(now) + DAY, map[], map[], false)
  }

  function HourlyReset(b: Budget, lim: Limits, now: int): Budget {
    if now > b.hourlyResetAt then
      b.(hourlyCalls := 0, hourlyResetAt := now + HOUR,
         degraded := b.degraded && b.dailyCalls >= lim.daily)
    else b
  }

  function DailyReset(b: Budget, now: int): Budget {
    if now > b.dailyResetAt then
      b.(dailyCalls := 0, dailyResetAt := TruncateToDay(now) + DAY, degraded := false,
         cooldowns := map m | m in b.cooldowns && b.cooldowns[m] >= now :: b.cooldowns[m])
    else b
  }

  function Reset(b: Budget, lim: Limits, now: int): Budget {
    DailyReset(HourlyReset(b, lim, now), now)
  }

  function Judge(b: Budget, lim: Limits, metric: string, now: int): Verdict {
    if metric in b.cooldowns && now < b.cooldowns[metric] then CoolingDown(b.cooldowns[metric] - now)
    else if Retries(b, metric) >= lim.maxRetry then RetriesExhausted(Retries(b, metric))
    else if b.hourlyCalls >= lim.hourly then HourlyLimitReached(b.hourlyCalls)
    else if b.dailyCalls >= lim.daily then DailyLimitReached(b.dailyCalls)
    else Allowed
  }

  function Check(b: Budget, lim: Limits, metric: string, now: int): (Budget, Verdict) {
    var r := Reset(b, lim, now);
    var v := Judge(r, lim, metric, now);
    (r.(degraded := r.degraded || v.HourlyLimitReached? || v.DailyLimitReached?), v)
  }

  function Record(b: Budget, lim: Limits, metric: string, now: int): Budget {
    b.(hourlyCalls := b.hourlyCalls + 1, dailyCalls := b.dailyCalls + 1,
       cooldowns := b.cooldowns[metric := now + lim.cooldown])
  }

  function Outcome(b: Budget, metric: string, success: bool): Budget {
    b.(retryCount := if success then b.retryCount - {metric}
                     else b.retryCount[metric := Retries(b, metric) + 1])
  }

  // ---------- The budget object ----------

  class LLMBudget {
    const limits: Limits
    var hourlyCalls: int
    var dailyCalls: int
    var hourlyResetAt: int
    var dailyResetAt: int
    var cooldowns: map<string, int>
    var retryCount: map<string, int>
    var degraded: bool

    function State(): Budget
      reads this
    {
      Budget(hourlyCalls, dailyCalls, hourlyResetAt, dailyResetAt, cooldowns, retryCount, degraded)
    }

    constructor (now: int, limits: Limits := DEFAULT_LIMITS)
      ensures State() == Fresh(now) && this.limits == limits
    {
      this.limits := limits;
      hourlyCalls, dailyCalls := 0, 0;
      hourlyResetAt := now + HOUR;
      dailyResetAt := TruncateToDay(now) + DAY;
      cooldowns, retryCount := map[], map[];
      degraded := false;
    }

    method CanCallLLM(metric: string, now: int) returns (verdict: Verdict)
      modifies this
      ensures (State(), verdict) == Check(old(State()), limits, metric, now)
    {
      ResetCountersIfNeeded(now);
      if metric in cooldowns && now < cooldowns[metric] {
        return CoolingDown(cooldowns[metric] - now);
      }
      var failures := if metric in retryCount then retryCount[metric] else 0;
      if failures >= limits.maxRetry {
        return RetriesExhausted(failures);
      }
      if hourlyCalls >= limits.hourly {
        degraded := true;
        return HourlyLimitReached(hourlyCalls);
      }
      if dailyCalls >= limits.daily {
        degraded := true;
        return DailyLimitReached(dailyCalls);
      }
      return Allowed;
    }

    method RecordCall(metric: string, now: int)
      modifies this
      ensures State() == Record(old(State()), limits, metric, now)
    {
      hourlyCalls := hourlyCalls + 1;
      dailyCalls := dailyCalls + 1;
      cooldowns := cooldowns[metric := now + limits.cooldown];
    }

    method RecordSuccess(metric: string)
      modifies this
      ensures State() == Outcome(old(State()), metric, true)
    {
      retryCount := retryCount - {metric};
    }

    method RecordFailure(metric: string)
      modifies this
      ensures State() == Outcome(old(State()), metric, false)
    {
      retryCount := retryCount[metric := (if metric in retryCount then retryCount[metric] else 0) + 1];
    }

    method ResetCountersIfNeeded(now: int)
      modifies this
      ensures State() == Reset(old(State()), limits, now)
    {
      if now > hourlyResetAt {
        hourlyCalls := 0;
        hourlyResetAt := now + HOUR;
        if dailyCalls < limits.daily {
          degraded := false;
        }
      }
      if now > dailyResetAt {
        dailyCalls := 0;
        dailyResetAt := TruncateToDay(now) + DAY;
        degraded := false;
        CleanUpCooldowns(now);
      }
    }

    /** The loop that deletes expired cooldowns at the daily reset. */
    method CleanUpCooldowns(now: int)
      modifies this`cooldowns
      ensures cooldowns == map m | m in old(cooldowns) && old(cooldowns)[m] >= now :: old(cooldowns)[m]
    {
      var pending := cooldowns.Keys;
      while pending != {}
        invariant pending <= cooldowns.Keys <= old(cooldowns).Keys
        invariant forall m :: m in cooldowns ==> cooldowns[m] == old(cooldowns)[m]
        invariant forall m :: m in old(cooldowns) && m !in pending ==>
          (m in cooldowns <==> old(cooldowns)[m] >= now)
      {
        var m :| m in pending;
        pending := pending - {m};
        if now > cooldowns[m] {
          cooldowns := cooldowns - {m};
        }
      }
    }
  }

  // ---------- The hooks ----------

  datatype Mode = Normal | RecordMode | ReplayMode

  datatype PreResult =
    | Proceed
    | Replayed(record: string)
    | BudgetRefused(verdict: Verdict)
    | ReplayExhausted(count: nat)

  class LLMHooks {
    const mode: Mode
    const budget: LLMBudget?
    const replay: seq<string>
    var cursor: nat
    var recorded: seq<string>

    constructor (mode: Mode, budget: LLMBudget?, replay: seq<string>)
      ensures this.mode == mode && this.budget == budget && this.replay == replay
      ensures cursor == 0 && recorded == []
    {
      this.mode, this.budget, this.replay := mode, budget, replay;
      cursor, recorded := 0, [];
    }

    /** Only an allowed check consumes a recorded response, and only outside replay mode does an allowed
        check let a real call proceed. */
    method PreCall(metric: string, now: int) returns (r: PreResult)
      modifies this`cursor, budget
      ensures budget == null ==> !r.BudgetRefused?
      ensures budget != null ==>
        var (after, verdict) := Check(old(budget.State()), budget.limits, metric, now);
        && budget.State() == after
        && (r.BudgetRefused? <==> !verdict.Allowed?)
        && (r.BudgetRefused? ==> r.verdict == verdict)
      ensures r.Proceed? ==> mode != ReplayMode
      ensures r.Replayed? ==> mode == ReplayMode && old(cursor) < |replay| && r.record == replay[old(cursor)]
      ensures r.ReplayExhausted? ==> mode == ReplayMode && |replay| <= old(cursor) && r.count == |replay|
      ensures cursor == old(cursor) + (if r.Replayed? then 1 else 0)
    {
      if budget != null {
        var verdict := budget.CanCallLLM(metric, now);
        if !verdict.Allowed? {
          return BudgetRefused(verdict);
        }
      }
      if mode == ReplayMode {
        if cursor >= |replay| {
          return ReplayExhausted(|replay|);
        }
        r := Replayed(replay[cursor]);
        cursor := cursor + 1;
        return;
      }
      return Proceed;
    }

    method PostCall(metric: string, record: string, now: int, success: bool)
      modifies this`recorded, budget
      ensures budget != null ==>
        budget.State() == Outcome(Record(old(budget.State()), budget.limits, metric, now), metric, success)
      ensures recorded == if mode == RecordMode then old(recorded) + [record] else old(recorded)
    {
      if budget != null {
        budget.RecordCall(metric, now);
        if success {
          budget.RecordSuccess(metric);
        } else {
          budget.RecordFailure(metric);
        }
      }
      if mode == RecordMode {
        recorded := recorded + [record];
      }
    }
  }

  // ---------- Runs: interleavings of the critical sections ----------

  /** One critical section, with the time at which it ran. */
  datatype Event =
    | PreCall(metric: string, t: int)
    | CallRecorded(metric: string, t: int)
    | OutcomeRecorded(metric: string, t: int, success: bool)

  function Step(b: Budget, lim: Limits, e: Event): Budget {
    match e
    case PreCall(m, t) => Check(b, lim, m, t).0
    case CallRecorded(m, t) => Record(b, lim, m, t)
    case OutcomeRecorded(m, _, success) => Outcome(b, m, success)
  }

  function Grants(b: Budget, lim: Limits, e: Event): bool {
    e.PreCall? && Check(b, lim, e.metric, e.t).1.Allowed?
  }

  /** The budget after the run `es` of a budget created at time `t0`. */
  function After(lim: Limits, t0: int, es: seq<Event>): Budget {
    if es == [] then Fresh(t0)
    else Step(After(lim, t0, es[..|es| - 1]), lim, es[|es| - 1])
  }

  function Clock(t0: int, es: seq<Event>): int {
    if es == [] then t0 else es[|es| - 1].t
  }

  /** Granted calls that have not been recorded yet. */
  function InFlight(lim: Limits, t0: int, es: seq<Event>): int {
    if es == [] then 0
    else
      var before := es[..|es| - 1];
      var e := es[|es| - 1];
      InFlight(lim, t0, before)
      + (if Grants(After(lim, t0, before), lim, e) then 1 else 0)
      - (if e.CallRecorded? then 1 else 0)
  }

  /** The runs of the PreCall/PostCall protocol with at most `k` calls under way at a time: time does not go
      back, and a call is recorded only after it was granted.  With k = 1 every granted check is recorded
      before the next check is granted. */
  predicate Run(lim: Limits, t0: int, es: seq<Event>, k: nat) {
    es == [] ||
    var before := es[..|es| - 1];
    && Run(lim, t0, before, k)
    && Clock(t0, before) <= es[|es| - 1].t
    && (es[|es| - 1].CallRecorded? ==> InFlight(lim, t0, before) >= 1)
    && InFlight(lim, t0, es) <= k
  }

  function Max0(x: int): int {
    if x < 0 then 0 else x
  }

  /** How many calls were recorded at times in [lo, hi]. */
  function RecordedIn(es: seq<Event>, lo: int, hi: int): int {
    if es == [] then 0
    else
      var e := es[|es| - 1];
      RecordedIn(es[..|es| - 1], lo, hi) + (if e.CallRecorded? && lo <= e.t <= hi then 1 else 0)
  }

  /** How many checks were granted at times in (lo, hi]. */
  function GrantedIn(lim: Limits, t0: int, es: seq<Event>, lo: int, hi: int): int {
    if es == [] then 0
    else
      var before := es[..|es| - 1];
      var e := es[|es| - 1];
      GrantedIn(lim, t0, before, lo, hi)
      + (if Grants(After(lim, t0, before), lim, e) && lo < e.t <= hi then 1 else 0)
  }

  // ---------- Invariants of every run ----------

  /** However the calls interleave, neither counter exceeds its limit by more than the k - 1 calls that can
      be granted before the call under way is recorded; the same holds with the calls in flight added. */
  lemma {:induction false} CountersStayBounded(lim: Limits, t0: int, es: seq<Event>, k: nat)
    requires k >= 1 && Run(lim, t0, es, k)
    ensures var b := After(lim, t0, es);
            var n := InFlight(lim, t0, es);
            && 0 <= n <= k && 0 <= b.hourlyCalls && 0 <= b.dailyCalls
            && (n > 0 ==> lim.hourly >= 1 && lim.daily >= 1)
            && b.hourlyCalls + n <= Max0(lim.hourly) + k - 1
            && b.dailyCalls + n <= Max0(lim.daily) + k - 1
  {
    if es != [] {
      CountersStayBounded(lim, t0, es[..|es| - 1], k);
    }
  }

  /** Degraded mode is never entered, nor kept, while both counters are below their limits. */
  lemma {:induction false} DegradedMeansLimitReached(lim: Limits, t0: int, es: seq<Event>)
    ensures var b := After(lim, t0, es);
            b.degraded ==> b.hourlyCalls >= lim.hourly || b.dailyCalls >= lim.daily
  {
    if es != [] {
      DegradedMeansLimitReached(lim, t0, es[..|es| - 1]);
    }
  }

  /** The hourly window opened at most an hour before its reset deadline, never in the future; the daily
      deadline is a midnight. */
  lemma {:induction false} DeadlinesFollowTheClock(lim: Limits, t0: int, es: seq<Event>, k: nat)
    requires Run(lim, t0, es, k)
    ensures After(lim, t0, es).hourlyResetAt - HOUR <= Clock(t0, es)
    ensures Midnight(After(lim, t0, es).dailyResetAt)
  {
    if es != [] {
      DeadlinesFollowTheClock(lim, t0, es[..|es| - 1], k);
    }
  }

  // ---------- Hourly rate ----------

  /** While the clock has not passed lo + HOUR, at most one reset lies in [lo, lo + HOUR]: the calls recorded
      since `lo` belong to the open window or to the one before it. */
  lemma {:induction false} CallsSinceLo(lim: Limits, t0: int, es: seq<Event>, k: nat, lo: int)
    requires k >= 1 && Run(lim, t0, es, k) && Clock(t0, es) <= lo + HOUR
    ensures var b := After(lim, t0, es);
            RecordedIn(es, lo, lo + HOUR) <=
            b.hourlyCalls + (if b.hourlyResetAt - HOUR >= lo then Max0(lim.hourly) + k - 1 else 0)
    ensures Clock(t0, es) < lo ==> RecordedIn(es, lo, lo + HOUR) == 0
  {
    if es != [] {
      var before := es[..|es| - 1];
      CallsSinceLo(lim, t0, before, k, lo);
      CountersStayBounded(lim, t0, before, k);
    }
  }

  /** In every interleaved run, any time interval of at most one hour contains at most
      2 * (HourlyLimit + k - 1) recorded calls. */
  lemma {:induction false} HourlyRate(lim: Limits, t0: int, es: seq<Event>, k: nat, lo: int, hi: int)
    requires k >= 1 && Run(lim, t0, es, k) && hi <= lo + HOUR
    ensures RecordedIn(es, lo, hi) <= 2 * (Max0(lim.hourly) + k - 1)
  {
    if es != [] && es[|es| - 1].t > hi {
      HourlyRate(lim, t0, es[..|es| - 1], k, lo, hi);
    } else if Clock(t0, es) <= lo + HOUR {
      CallsSinceLo(lim, t0, es, k, lo);
      CountersStayBounded(lim, t0, es, k);
      RecordedInNarrower(es, lo, hi, lo + HOUR);
    } else {
      assert es == [];
    }
  }

  lemma {:induction false} RecordedInNarrower(es: seq<Event>, lo: int, hi: int, hi': int)
    requires hi <= hi'
    ensures RecordedIn(es, lo, hi) <= RecordedIn(es, lo, hi')
  {
    if es != [] {
      RecordedInNarrower(es[..|es| - 1], lo, hi, hi');
    }
  }

  /** Sequential use, the case the limit is documented for: every granted check is recorded before the next
      one is granted. */
  lemma HourlyRateSequential(lim: Limits, t0: int, es: seq<Event>, lo: int)
    requires Run(lim, t0, es, 1) && lim.hourly >= 0
    ensures RecordedIn(es, lo, lo + HOUR) <= 2 * lim.hourly
  {
    HourlyRate(lim, t0, es, 1, lo, lo + HOUR);
  }

  /** A run of the protocol continues with one more step. */
  lemma RunSnoc(lim: Limits, t0: int, es: seq<Event>, k: nat, e: Event)
    requires Run(lim, t0, es, k) && Clock(t0, es) <= e.t
    requires e.CallRecorded? ==> InFlight(lim, t0, es) >= 1
    requires InFlight(lim, t0, es) + (if Grants(After(lim, t0, es), lim, e) then 1 else 0)
             - (if e.CallRecorded? then 1 else 0) <= k
    ensures Run(lim, t0, es + [e], k)
    ensures After(lim, t0, es + [e]) == Step(After(lim, t0, es), lim, e)
    ensures InFlight(lim, t0, es + [e]) == InFlight(lim, t0, es)
              + (if Grants(After(lim, t0, es), lim, e) then 1 else 0) - (if e.CallRecorded? then 1 else 0)
    ensures forall lo, hi :: RecordedIn(es + [e], lo, hi)
              == RecordedIn(es, lo, hi) + (if e.CallRecorded? && lo <= e.t <= hi then 1 else 0)
  {
    assert (es + [e])[..|es + [e]| - 1] == es;
  }

  // ---------- When an hour holds more calls than the limit ----------

  /** The event finds the hourly window over and opens a new one. */
  predicate OpensHour(lim: Limits, t0: int, before: seq<Event>, e: Event) {
    e.PreCall? && e.t > After(lim, t0, before).hourlyResetAt
  }

  /** How many hourly resets happened at times in [lo, hi]. */
  function ResetsIn(lim: Limits, t0: int, es: seq<Event>, lo: int, hi: int): nat {
    if es == [] then 0
    else
      var before, e := es[..|es| - 1], es[|es| - 1];
      ResetsIn(lim, t0, before, lo, hi) + (if OpensHour(lim, t0, before, e) && lo <= e.t <= hi then 1 else 0)
  }

  /** What n windows admit. */
  function Windows(n: nat, most: int): (calls: int)
    ensures most >= 0 ==> calls >= 0
  {
    if n == 0 then 0 else Windows(n - 1, most) + most
  }

  lemma {:induction false} WindowsIs(n: nat, most: int)
    ensures Windows(n, most) == n * most
  {
    if n > 0 {
      WindowsIs(n - 1, most);
    }
  }

  lemma {:induction false} CallsSinceReset(lim: Limits, t0: int, es: seq<Event>, k: nat, lo: int, hi: int)
    requires k >= 1 && Run(lim, t0, es, k) && Clock(t0, es) <= hi
    ensures RecordedIn(es, lo, hi)
         <= Windows(ResetsIn(lim, t0, es, lo, hi), Max0(lim.hourly) + k - 1) + After(lim, t0, es).hourlyCalls
    ensures Clock(t0, es) < lo ==> RecordedIn(es, lo, hi) == 0
  {
    hide Step;
    if es != [] {
      var before, e := es[..|es| - 1], es[|es| - 1];
      CallsSinceReset(lim, t0, before, k, lo, hi);
      CountersStayBounded(lim, t0, before, k);
      HourlyCallsStep(lim, After(lim, t0, before), e);
    }
  }

  lemma HourlyCallsStep(lim: Limits, b: Budget, e: Event)
    ensures Step(b, lim, e).hourlyCalls
         == match e
            case PreCall(_, t) => (if t > b.hourlyResetAt then 0 else b.hourlyCalls)
            case CallRecorded(_, _) => b.hourlyCalls + 1
            case OutcomeRecorded(_, _, _) => b.hourlyCalls
  {
  }

  /** Over any interval, of any length: each hourly reset in it, and its beginning, admits at most
      HourlyLimit + k - 1 calls.  In particular an interval without a reset respects the limit. */
  lemma {:induction false} CallsPerReset(lim: Limits, t0: int, es: seq<Event>, k: nat, lo: int, hi: int)
    requires k >= 1 && Run(lim, t0, es, k)
    ensures RecordedIn(es, lo, hi) <= (ResetsIn(lim, t0, es, lo, hi) + 1) * (Max0(lim.hourly) + k - 1)
    ensures ResetsIn(lim, t0, es, lo, hi) == 0 ==> RecordedIn(es, lo, hi) <= Max0(lim.hourly) + k - 1
  {
    hide Step, After, Grants;
    var n, most := ResetsIn(lim, t0, es, lo, hi), Max0(lim.hourly) + k - 1;
    WindowsIs(n + 1, most);
    if es != [] && es[|es| - 1].t > hi {
      CallsPerReset(lim, t0, es[..|es| - 1], k, lo, hi);
    } else if es != [] {
      CallsSinceReset(lim, t0, es, k, lo, hi);
      CountersStayBounded(lim, t0, es, k);
    }
  }

  /** Resets are more than an hour apart. */
  lemma {:induction false} OneResetAnHour(lim: Limits, t0: int, es: seq<Event>, k: nat, lo: int, hi: int)
    requires Run(lim, t0, es, k) && hi <= lo + HOUR
    ensures ResetsIn(lim, t0, es, lo, hi) <= 1
    ensures ResetsIn(lim, t0, es, lo, hi) == 1 ==> After(lim, t0, es).hourlyResetAt >= lo + HOUR
  {
    if es != [] {
      OneResetAnHour(lim, t0, es[..|es| - 1], k, lo, hi);
    }
  }

  // ---------- The doubled limit is reached ----------

  /** The budget at time `t`, with `n` calls in flight, resets not due, no failures, and no metric named with
      `names` or more characters cooling down. */
  predicate Settled(lim: Limits, t0: int, es: seq<Event>, k: nat, t: int, n: nat, h: nat, d: nat, names: nat) {
    var b := After(lim, t0, es);
    && Run(lim, t0, es, k) && Clock(t0, es) <= t && InFlight(lim, t0, es) == n
    && b.hourlyCalls == h && b.dailyCalls == d && b.retryCount == map[]
    && (forall m :: m in b.cooldowns ==> |m| < names)
    && t <= b.dailyResetAt
  }

  function Metric(n: nat): (m: string)
    ensures |m| == n
  {
    seq(n, i => 'm')
  }

  /** A call with a new metric is granted while the limits are not reached. */
  lemma Grant(lim: Limits, t0: int, es: seq<Event>, k: nat, t: int, n: nat, h: nat, d: nat, names: nat)
    returns (after: seq<Event>)
    requires Settled(lim, t0, es, k, t, n, h, d, names) && n < k && d < lim.daily && lim.maxRetry > 0
    requires (t <= After(lim, t0, es).hourlyResetAt && h < lim.hourly)
             || (t > After(lim, t0, es).hourlyResetAt && 0 < lim.hourly)
    ensures after == es + [PreCall(Metric(names), t)] && t <= After(lim, t0, after).hourlyResetAt
    ensures var h' := if t <= After(lim, t0, es).hourlyResetAt then h else 0;
            Settled(lim, t0, after, k, t, n + 1, h', d, names + 1)
    ensures After(lim, t0, after).hourlyResetAt
         == if t <= After(lim, t0, es).hourlyResetAt then After(lim, t0, es).hourlyResetAt else t + HOUR
    ensures forall lo, hi :: RecordedIn(after, lo, hi) == RecordedIn(es, lo, hi)
  {
    hide Run, After, InFlight, RecordedIn, Clock;
    var e := PreCall(Metric(names), t);
    var r := Reset(After(lim, t0, es), lim, t);
    assert Metric(names) !in r.cooldowns;
    assert Grants(After(lim, t0, es), lim, e);
    RunSnoc(lim, t0, es, k, e);
    after := es + [e];
    ClockOf(t0, es, e);
  }

  lemma ClockOf(t0: int, es: seq<Event>, e: Event)
    ensures Clock(t0, es + [e]) == e.t
  {
  }

  lemma RecordOne(lim: Limits, t0: int, es: seq<Event>, k: nat, t: int, n: nat, h: nat, d: nat, names: nat,
                  metric: string)
    returns (after: seq<Event>)
    requires Settled(lim, t0, es, k, t, n, h, d, names) && n > 0 && |metric| < names
    ensures after == es + [CallRecorded(metric, t)] && Settled(lim, t0, after, k, t, n - 1, h + 1, d + 1, names)
    ensures After(lim, t0, after).hourlyResetAt == After(lim, t0, es).hourlyResetAt
    ensures forall lo, hi :: RecordedIn(after, lo, hi)
              == RecordedIn(es, lo, hi) + (if lo <= t <= hi then 1 else 0)
  {
    hide Run, After, InFlight, RecordedIn, Clock;
    var e := CallRecorded(metric, t);
    assert !Grants(After(lim, t0, es), lim, e);
    RunSnocRecord(lim, t0, es, k, e);
    after := es + [e];
    ClockOf(t0, es, e);
  }

  lemma RunSnocRecord(lim: Limits, t0: int, es: seq<Event>, k: nat, e: Event)
    requires Run(lim, t0, es, k) && Clock(t0, es) <= e.t && e.CallRecorded? && InFlight(lim, t0, es) >= 1
    ensures Run(lim, t0, es + [e], k)
    ensures After(lim, t0, es + [e]) == Step(After(lim, t0, es), lim, e)
    ensures InFlight(lim, t0, es + [e]) == InFlight(lim, t0, es) - 1
    ensures forall lo, hi :: RecordedIn(es + [e], lo, hi)
              == RecordedIn(es, lo, hi) + (if lo <= e.t <= hi then 1 else 0)
  {
    RunSnoc(lim, t0, es, k, e);
  }

  /** The most calls that one hourly window can take, all at time `t`, of which one is in flight already: the
      limit less one, one after the other, and then k that were all granted at the last free place. */
  lemma FillHour(lim: Limits, t0: int, es: seq<Event>, k: nat, t: int, d: nat, names: nat)
    returns (after: seq<Event>)
    requires k >= 1 && lim.hourly >= 1 && lim.maxRetry > 0 && d + lim.hourly + k - 1 <= lim.daily
    requires Settled(lim, t0, es, k, t, 1, 0, d, names) && names > 0 && t <= After(lim, t0, es).hourlyResetAt
    ensures Settled(lim, t0, after, k, t, 0, lim.hourly + k - 1, d + lim.hourly + k - 1, names + lim.hourly + k - 2)
    ensures After(lim, t0, after).hourlyResetAt == After(lim, t0, es).hourlyResetAt
    ensures forall lo, hi :: lo <= t <= hi ==>
              RecordedIn(after, lo, hi) == RecordedIn(es, lo, hi) + lim.hourly + k - 1
  {
    hide Settled, After, RecordedIn;
    after := es;
    for i := 0 to lim.hourly - 1
      invariant Settled(lim, t0, after, k, t, 1, i, d + i, names + i)
      invariant After(lim, t0, after).hourlyResetAt == After(lim, t0, es).hourlyResetAt
      invariant forall lo, hi :: lo <= t <= hi ==> RecordedIn(after, lo, hi) == RecordedIn(es, lo, hi) + i
    {
      var one := RecordOne(lim, t0, after, k, t, 1, i, d + i, names + i, Metric(names + i - 1));
      after := Grant(lim, t0, one, k, t, 0, i + 1, d + i + 1, names + i);
    }
    var h := lim.hourly - 1;
    for i := 1 to k
      invariant Settled(lim, t0, after, k, t, i, h, d + h, names + h + i - 1)
      invariant After(lim, t0, after).hourlyResetAt == After(lim, t0, es).hourlyResetAt
      invariant forall lo, hi :: lo <= t <= hi ==> RecordedIn(after, lo, hi) == RecordedIn(es, lo, hi) + h
    {
      after := Grant(lim, t0, after, k, t, i, h, d + h, names + h + i - 1);
    }
    for i := 0 to k
      invariant Settled(lim, t0, after, k, t, k - i, h + i, d + h + i, names + h + k - 1)
      invariant After(lim, t0, after).hourlyResetAt == After(lim, t0, es).hourlyResetAt
      invariant forall lo, hi :: lo <= t <= hi ==> RecordedIn(after, lo, hi) == RecordedIn(es, lo, hi) + h + i
    {
      after := RecordOne(lim, t0, after, k, t, k - i, h + i, d + h + i, names + h + k - 1, Metric(names + h - 1 + i));
    }
  }

  /** The bound of HourlyRate is reached for every hourly limit, every k and any cooldown, as long as the daily
      limit allows it: all calls one nanosecond apart, on either side of a reset.  "Max calls per hour" therefore
      does not hold of every interval of an hour. */
  lemma HourlyRateIsTight(lim: Limits, k: nat) returns (es: seq<Event>)
    requires k >= 1 && lim.hourly >= 1 && lim.maxRetry > 0 && lim.daily >= 2 * (lim.hourly + k - 1)
    ensures Run(lim, 0, es, k) && RecordedIn(es, HOUR, HOUR + HOUR) == 2 * (lim.hourly + k - 1)
  {
    var most := lim.hourly + k - 1;
    assert Settled(lim, 0, [], k, HOUR, 0, 0, 0, 0);
    assert After(lim, 0, []).hourlyResetAt == HOUR && RecordedIn([], HOUR, HOUR + HOUR) == 0;
    hide After, RecordedIn;
    es := Grant(lim, 0, [], k, HOUR, 0, 0, 0, 0);
    es := FillHour(lim, 0, es, k, HOUR, 0, 1);
    Later(lim, es, k, most, most);
    es := Grant(lim, 0, es, k, HOUR + 1, 0, most, most, most);
    es := FillHour(lim, 0, es, k, HOUR + 1, most, most + 1);
  }

  lemma Later(lim: Limits, es: seq<Event>, k: nat, h: nat, names: nat)
    requires Settled(lim, 0, es, k, HOUR, 0, h, h, names)
    ensures Settled(lim, 0, es, k, HOUR + 1, 0, h, h, names)
  {
    DeadlinesFollowTheClock(lim, 0, es, k);
    var deadline := After(lim, 0, es).dailyResetAt;
    assert deadline % DAY == 0 && deadline >= HOUR;
  }

  // ---------- Daily rate ----------

  lemma NextMidnight(midnight: int, deadline: int)
    requires Midnight(midnight) && Midnight(deadline) && midnight < deadline
    ensures midnight + DAY <= deadline
  {
    assert midnight == DAY * (midnight / DAY) && deadline == DAY * (deadline / DAY);
  }

  /** Within the day (midnight, midnight + DAY], the calls granted so far are all counted by the daily counter
      or still in flight, and once a call was granted no reset is due before the day is over. */
  lemma {:induction false} GrantedToday(lim: Limits, t0: int, es: seq<Event>, k: nat, midnight: int)
    requires k >= 1 && Run(lim, t0, es, k) && Midnight(midnight) && Clock(t0, es) <= midnight + DAY
    ensures var b := After(lim, t0, es);
            var g := GrantedIn(lim, t0, es, midnight, midnight + DAY);
            && 0 <= g <= b.dailyCalls + InFlight(lim, t0, es)
            && (g > 0 ==> b.dailyResetAt >= midnight + DAY)
  {
    if es != [] {
      var before := es[..|es| - 1];
      GrantedToday(lim, t0, before, k, midnight);
      CountersStayBounded(lim, t0, before, k);
      DeadlinesFollowTheClock(lim, t0, es, k);
      var e := es[|es| - 1];
      if e.PreCall? && midnight < e.t {
        assert e.t <= After(lim, t0, es).dailyResetAt;
        NextMidnight(midnight, After(lim, t0, es).dailyResetAt);
      }
    }
  }

  /** In every interleaved run, at most DailyLimit + k - 1 calls are granted between two midnights. */
  lemma {:induction false} DailyRate(lim: Limits, t0: int, es: seq<Event>, k: nat, midnight: int)
    requires k >= 1 && Run(lim, t0, es, k) && Midnight(midnight)
    ensures GrantedIn(lim, t0, es, midnight, midnight + DAY) <= Max0(lim.daily) + k - 1
  {
    if es != [] && es[|es| - 1].t > midnight + DAY {
      DailyRate(lim, t0, es[..|es| - 1], k, midnight);
    } else if Clock(t0, es) <= midnight + DAY {
      GrantedToday(lim, t0, es, k, midnight);
      CountersStayBounded(lim, t0, es, k);
    } else {
      assert es == [];
    }
  }

  // ---------- Cooldown and escalation ----------

  /** After a call for `m` recorded at time t, the cooldown entry protects `m` until t + cooldown, or the clock
      has passed that time. */
  lemma {:induction false} CooldownHolds(lim: Limits, t0: int, es: seq<Event>, k: nat, j: nat)
    requires Run(lim, t0, es, k) && j < |es| && es[j].CallRecorded?
    ensures var b := After(lim, t0, es);
            || (es[j].metric in b.cooldowns && b.cooldowns[es[j].metric] >= es[j].t + lim.cooldown)
            || Clock(t0, es) > es[j].t + lim.cooldown
    ensures es[j].t <= Clock(t0, es)
  {
    var before := es[..|es| - 1];
    if j < |es| - 1 {
      CooldownHolds(lim, t0, before, k, j);
    }
  }

  /** The same anomaly does not reach the LLM again within the cooldown window, in any interleaving. */
  lemma {:induction false} NoGrantDuringCooldown(lim: Limits, t0: int, es: seq<Event>, k: nat, j: nat, i: nat)
    requires j < i < |es| && Run(lim, t0, es[..i + 1], k)
    requires es[j].CallRecorded? && es[i].PreCall? && es[i].metric == es[j].metric
    requires Grants(After(lim, t0, es[..i]), lim, es[i])
    ensures es[i].t >= es[j].t + lim.cooldown
  {
    assert es[..i + 1][..i] == es[..i];
    CooldownHolds(lim, t0, es[..i], k, j);
  }

  /** Failed repairs of `m` since its last successful one. */
  function FailuresSinceSuccess(es: seq<Event>, m: string): nat {
    if es == [] then 0
    else
      var e := es[|es| - 1];
      if e.OutcomeRecorded? && e.metric == m then
        if e.success then 0 else FailuresSinceSuccess(es[..|es| - 1], m) + 1
      else FailuresSinceSuccess(es[..|es| - 1], m)
  }

  lemma {:induction false} RetriesCountFailures(lim: Limits, t0: int, es: seq<Event>, m: string)
    ensures Retries(After(lim, t0, es), m) == FailuresSinceSuccess(es, m)
  {
    if es != [] {
      RetriesCountFailures(lim, t0, es[..|es| - 1], m);
    }
  }

  // ---------- Escalation ----------

  /** How many checks for the metric were granted. */
  function GrantsFor(lim: Limits, t0: int, es: seq<Event>, metric: string): nat {
    if es == [] then 0
    else
      var before, e := es[..|es| - 1], es[|es| - 1];
      GrantsFor(lim, t0, before, metric)
      + (if Grants(After(lim, t0, before), lim, e) && e.metric == metric then 1 else 0)
  }

  function RecordsFor(es: seq<Event>, metric: string): nat {
    if es == [] then 0
    else
      var e := es[|es| - 1];
      RecordsFor(es[..|es| - 1], metric) + (if e.CallRecorded? && e.metric == metric then 1 else 0)
  }

  function OutcomesFor(es: seq<Event>, metric: string): nat {
    if es == [] then 0
    else
      var e := es[|es| - 1];
      OutcomesFor(es[..|es| - 1], metric) + (if e.OutcomeRecorded? && e.metric == metric then 1 else 0)
  }

  /** The protocol of one metric's calls, in any interleaving: each recorded call was granted before, and each
      outcome belongs to a recorded call. */
  predicate Protocol(lim: Limits, t0: int, es: seq<Event>) {
    es == [] ||
    var before, e := es[..|es| - 1], es[|es| - 1];
    && Protocol(lim, t0, before)
    && (e.CallRecorded? ==> RecordsFor(before, e.metric) < GrantsFor(lim, t0, before, e.metric))
    && (e.OutcomeRecorded? ==> OutcomesFor(before, e.metric) < RecordsFor(before, e.metric))
  }

  lemma {:induction false} ProtocolCounts(lim: Limits, t0: int, es: seq<Event>, metric: string)
    requires Protocol(lim, t0, es)
    ensures OutcomesFor(es, metric) <= RecordsFor(es, metric) <= GrantsFor(lim, t0, es, metric)
  {
    if es != [] {
      ProtocolCounts(lim, t0, es[..|es| - 1], metric);
    }
  }

  /** The metric has reached the maximum of failures and no call for it is under way. */
  predicate Escalated(lim: Limits, t0: int, es: seq<Event>, metric: string) {
    && Retries(After(lim, t0, es), metric) >= lim.maxRetry
    && GrantsFor(lim, t0, es, metric) == OutcomesFor(es, metric)
  }

  lemma ProtocolFront(lim: Limits, t0: int, es: seq<Event>)
    requires es != [] && Protocol(lim, t0, es)
    ensures Protocol(lim, t0, es[..|es| - 1])
  {
  }

  lemma EscalatedStep(lim: Limits, t0: int, es: seq<Event>, metric: string)
    requires es != [] && Protocol(lim, t0, es) && Escalated(lim, t0, es[..|es| - 1], metric)
    ensures Escalated(lim, t0, es, metric)
    ensures GrantsFor(lim, t0, es, metric) == GrantsFor(lim, t0, es[..|es| - 1], metric)
  {
    var before, e := es[..|es| - 1], es[|es| - 1];
    ProtocolCounts(lim, t0, before, e.metric);
    RetriesStep(lim, After(lim, t0, before), e, metric);
  }

  lemma RetriesStep(lim: Limits, b: Budget, e: Event, metric: string)
    ensures !(e.OutcomeRecorded? && e.metric == metric) ==> Retries(Step(b, lim, e), metric) == Retries(b, metric)
    ensures Grants(b, lim, e) && e.metric == metric ==> Retries(b, metric) < lim.maxRetry
  {
  }

  /** A metric that failed as often as allowed, with no call under way, is never granted a call again, through any
      continuation of the run and all hourly and daily resets in it. */
  lemma {:induction false} EscalatedForEver(lim: Limits, t0: int, es: seq<Event>, more: seq<Event>, metric: string)
    requires Protocol(lim, t0, es + more) && Escalated(lim, t0, es, metric)
    ensures Escalated(lim, t0, es + more, metric)
    ensures GrantsFor(lim, t0, es + more, metric) == GrantsFor(lim, t0, es, metric)
    decreases |more|
  {
    hide Protocol, Escalated, GrantsFor, After;
    if more == [] {
      assert es + more == es;
    } else {
      assert (es + more)[..|es + more| - 1] == es + more[..|more| - 1];
      ProtocolFront(lim, t0, es + more);
      EscalatedForEver(lim, t0, es, more[..|more| - 1], metric);
      EscalatedStep(lim, t0, es + more, metric);
    }
  }

  /** With a call under way it may be: its success forgets all failures. */
  lemma SuccessForgets(lim: Limits, t0: int, es: seq<Event>, metric: string, t: int)
    requires Protocol(lim, t0, es) && OutcomesFor(es, metric) < RecordsFor(es, metric)
    ensures var after := es + [OutcomeRecorded(metric, t, true)];
            Protocol(lim, t0, after) && Retries(After(lim, t0, after), metric) == 0
  {
    assert (es + [OutcomeRecorded(metric, t, true)])[..|es|] == es;
  }
}
