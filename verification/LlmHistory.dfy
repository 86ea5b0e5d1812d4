/** The answers of the budget, told from the history of events alone: when the last call for a metric was recorded, how
    many calls the current hour and day have seen, and how often repairs have failed since the last success. */
module LlmHistory {
  import opened LlmBudget

  // ---------- What the events say ----------

  datatype Last = Never | At(time: int)

  /** When the last call for the metric was recorded. */
  function LastRecorded(es: seq<Event>, metric: string): Last {
    if es == [] then Never
    else
      var e := es[|es| - 1];
      if e.CallRecorded? && e.metric == metric then At(e.t) else LastRecorded(es[..|es| - 1], metric)
  }

  /** When the current hour ends: the first starts at `t0`, each later one with the first check behind its end. */
  function HourEnd(t0: int, es: seq<Event>): int {
    if es == [] then t0 + HOUR
    else
      var e, end := es[|es| - 1], HourEnd(t0, es[..|es| - 1]);
      if e.PreCall? && e.t > end then e.t + HOUR else end
  }

  /** The first midnight behind a time. */
  function MidnightAfter(t: int): (m: int)
    ensures Midnight(m) && t < m <= t + DAY
  {
    TruncateToDay(t) + DAY
  }

  function DayEnd(t0: int, es: seq<Event>): int {
    if es == [] then MidnightAfter(t0)
    else
      var e, end := es[|es| - 1], DayEnd(t0, es[..|es| - 1]);
      if e.PreCall? && e.t > end then MidnightAfter(e.t) else end
  }

  /** How many calls were recorded since the current hour was opened. */
  function CallsThisHour(t0: int, es: seq<Event>): nat {
    if es == [] then 0
    else
      var before, e := es[..|es| - 1], es[|es| - 1];
      if e.PreCall? && e.t > HourEnd(t0, before) then 0
      else CallsThisHour(t0, before) + (if e.CallRecorded? then 1 else 0)
  }

  function CallsThisDay(t0: int, es: seq<Event>): nat {
    if es == [] then 0
    else
      var before, e := es[..|es| - 1], es[|es| - 1];
      if e.PreCall? && e.t > DayEnd(t0, before) then 0
      else CallsThisDay(t0, before) + (if e.CallRecorded? then 1 else 0)
  }

  /** Time does not go back. */
  predicate Forward(t0: int, es: seq<Event>) {
    es == [] || (Forward(t0, es[..|es| - 1]) && Clock(t0, es[..|es| - 1]) <= es[|es| - 1].t)
  }

  // ---------- The budget is its history ----------

  /** The counters and deadlines are those of the history, a cooldown entry is the time of the metric's last call plus
      the cooldown, and an entry that is missing has expired. */
  ghost predicate IsHistory(lim: Limits, t0: int, es: seq<Event>) {
    var b := After(lim, t0, es);
    && b.hourlyCalls == CallsThisHour(t0, es) && b.hourlyResetAt == HourEnd(t0, es)
    && b.dailyCalls == CallsThisDay(t0, es) && b.dailyResetAt == DayEnd(t0, es)
    && (forall m :: m in b.cooldowns ==>
          LastRecorded(es, m).At? && b.cooldowns[m] == LastRecorded(es, m).time + lim.cooldown)
    && (forall m :: LastRecorded(es, m).At? && m !in b.cooldowns ==>
          Clock(t0, es) > LastRecorded(es, m).time + lim.cooldown)
  }

  lemma StepIsHistory(lim: Limits, t0: int, es: seq<Event>)
    requires es != [] && Forward(t0, es) && IsHistory(lim, t0, es[..|es| - 1])
    ensures IsHistory(lim, t0, es)
  {
    var before, e := es[..|es| - 1], es[|es| - 1];
    var b, c := After(lim, t0, before), After(lim, t0, es);
    assert c == Step(b, lim, e);
    forall m ensures LastRecorded(es, m)
                  == if e.CallRecorded? && e.metric == m then At(e.t) else LastRecorded(before, m) {
    }
  }

  lemma {:induction false} BudgetIsHistory(lim: Limits, t0: int, es: seq<Event>)
    requires Forward(t0, es)
    ensures IsHistory(lim, t0, es)
  {
    hide IsHistory;
    if es == [] {
      FreshIsHistory(lim, t0);
    } else {
      BudgetIsHistory(lim, t0, es[..|es| - 1]);
      StepIsHistory(lim, t0, es);
    }
  }

  lemma FreshIsHistory(lim: Limits, t0: int)
    ensures IsHistory(lim, t0, [])
  {
  }

  // ---------- The answer to a check ----------

  function HourlyAt(t0: int, es: seq<Event>, t: int): nat {
    if t > HourEnd(t0, es) then 0 else CallsThisHour(t0, es)
  }

  function DailyAt(t0: int, es: seq<Event>, t: int): nat {
    if t > DayEnd(t0, es) then 0 else CallsThisDay(t0, es)
  }

  predicate Cooling(lim: Limits, es: seq<Event>, metric: string, t: int) {
    LastRecorded(es, metric).At? && t < LastRecorded(es, metric).time + lim.cooldown
  }

  function Answer(lim: Limits, t0: int, es: seq<Event>, metric: string, t: int): Verdict {
    if Cooling(lim, es, metric, t) then CoolingDown(LastRecorded(es, metric).time + lim.cooldown - t)
    else if FailuresSinceSuccess(es, metric) >= lim.maxRetry then RetriesExhausted(FailuresSinceSuccess(es, metric))
    else if HourlyAt(t0, es, t) >= lim.hourly then HourlyLimitReached(HourlyAt(t0, es, t))
    else if DailyAt(t0, es, t) >= lim.daily then DailyLimitReached(DailyAt(t0, es, t))
    else Allowed
  }

  lemma CheckOfHistory(lim: Limits, t0: int, es: seq<Event>, metric: string, t: int)
    requires IsHistory(lim, t0, es) && Clock(t0, es) <= t
    requires Retries(After(lim, t0, es), metric) == FailuresSinceSuccess(es, metric)
    ensures Check(After(lim, t0, es), lim, metric, t).1 == Answer(lim, t0, es, metric, t)
  {
    hide After, FailuresSinceSuccess, HourEnd, DayEnd, CallsThisHour, CallsThisDay, LastRecorded;
  }

  /** The answer to every check in every run, with all the numbers it reports, from the history alone.  In particular a
      metric cools down exactly until the cooldown has passed since the last call recorded for it. */
  lemma AnswerFromHistory(lim: Limits, t0: int, es: seq<Event>, metric: string, t: int)
    requires Forward(t0, es) && Clock(t0, es) <= t
    ensures Check(After(lim, t0, es), lim, metric, t).1 == Answer(lim, t0, es, metric, t)
  {
    BudgetIsHistory(lim, t0, es);
    RetriesCountFailures(lim, t0, es, metric);
    CheckOfHistory(lim, t0, es, metric, t);
  }

  /** Exactly when a check is granted. */
  lemma GrantedExactlyWhen(lim: Limits, t0: int, es: seq<Event>, metric: string, t: int)
    requires Forward(t0, es) && Clock(t0, es) <= t
    ensures Grants(After(lim, t0, es), lim, PreCall(metric, t)) <==>
              && (LastRecorded(es, metric).At? ==> t >= LastRecorded(es, metric).time + lim.cooldown)
              && FailuresSinceSuccess(es, metric) < lim.maxRetry
              && HourlyAt(t0, es, t) < lim.hourly && DailyAt(t0, es, t) < lim.daily
  {
    AnswerFromHistory(lim, t0, es, metric, t);
  }

  /** The runs of the protocol are among these. */
  lemma {:induction false} RunsGoForward(lim: Limits, t0: int, es: seq<Event>, k: nat)
    requires Run(lim, t0, es, k)
    ensures Forward(t0, es)
  {
    if es != [] {
      RunsGoForward(lim, t0, es[..|es| - 1], k);
    }
  }

  // ---------- Degraded mode ----------

  /** The event is a check that a limit refuses. */
  predicate HitsLimit(lim: Limits, t0: int, before: seq<Event>, e: Event) {
    e.PreCall? &&
    var answer := Answer(lim, t0, before, e.metric, e.t);
    answer.HourlyLimitReached? || answer.DailyLimitReached?
  }

  /** The event opens a new day, or a new hour of a day that has calls left. */
  predicate Recovers(lim: Limits, t0: int, before: seq<Event>, e: Event) {
    e.PreCall? &&
    (e.t > DayEnd(t0, before) || (e.t > HourEnd(t0, before) && CallsThisDay(t0, before) < lim.daily))
  }

  function DegradedNow(lim: Limits, t0: int, es: seq<Event>): bool {
    es != [] &&
    var before, e := es[..|es| - 1], es[|es| - 1];
    HitsLimit(lim, t0, before, e) || (DegradedNow(lim, t0, before) && !Recovers(lim, t0, before, e))
  }

  lemma {:induction false} DegradedIsHistory(lim: Limits, t0: int, es: seq<Event>)
    requires Forward(t0, es)
    ensures After(lim, t0, es).degraded == DegradedNow(lim, t0, es)
  {
    if es != [] {
      var before, e := es[..|es| - 1], es[|es| - 1];
      DegradedIsHistory(lim, t0, before);
      BudgetIsHistory(lim, t0, before);
      if e.PreCall? {
        AnswerFromHistory(lim, t0, before, e.metric, e.t);
      }
      DegradedStep(lim, t0, before, e);
    }
  }

  lemma DegradedStep(lim: Limits, t0: int, before: seq<Event>, e: Event)
    requires IsHistory(lim, t0, before)
    requires e.PreCall? ==>
               Check(After(lim, t0, before), lim, e.metric, e.t).1 == Answer(lim, t0, before, e.metric, e.t)
    ensures Step(After(lim, t0, before), lim, e).degraded
         == (HitsLimit(lim, t0, before, e)
             || (After(lim, t0, before).degraded && !Recovers(lim, t0, before, e)))
  {
    hide After, Answer, HourEnd, DayEnd, CallsThisHour, CallsThisDay, LastRecorded, Judge;
  }

  /** Event k is a check that a limit refused, and no later one opens a day or an hour with calls left. */
  predicate DegradedSince(lim: Limits, t0: int, es: seq<Event>, k: nat)
    requires k < |es|
  {
    HitsLimit(lim, t0, es[..k], es[k]) && forall j :: k < j < |es| ==> !Recovers(lim, t0, es[..j], es[j])
  }

  lemma {:induction false} DegradedNowIff(lim: Limits, t0: int, es: seq<Event>)
    ensures DegradedNow(lim, t0, es) <==> exists k :: 0 <= k < |es| && DegradedSince(lim, t0, es, k)
  {
    hide HitsLimit, Recovers;
    if es != [] {
      var n := |es| - 1;
      var before := es[..n];
      DegradedNowIff(lim, t0, before);
      assert forall k :: 0 <= k < n ==> before[..k] == es[..k];
      forall k | 0 <= k < n
        ensures DegradedSince(lim, t0, es, k)
           <==> DegradedSince(lim, t0, before, k) && !Recovers(lim, t0, before, es[n]) {
      }
      assert DegradedSince(lim, t0, es, n) <==> HitsLimit(lim, t0, before, es[n]);
    }
  }

  /** Exactly when the budget is in degraded mode: when a limit refused a check, and since then no day was opened, and
      no hour of a day with calls left. */
  lemma DegradedIff(lim: Limits, t0: int, es: seq<Event>)
    requires Forward(t0, es)
    ensures After(lim, t0, es).degraded
       <==> exists k :: 0 <= k < |es| && DegradedSince(lim, t0, es, k)
  {
    DegradedIsHistory(lim, t0, es);
    DegradedNowIff(lim, t0, es);
  }
}
