/** What the fleet manager knows and reports, told from the history of events alone. */
module FleetHistory {
  import opened Fleet

  /** The Overlord has been added and not removed since. */
  predicate Registered(es: seq<Event>, id: string) {
    es != [] &&
    var e := es[|es| - 1];
    if e.Added? && e.id == id then true
    else if e.Removed? && e.id == id then false
    else Registered(es[..|es| - 1], id)
  }

  /** The event is the registration of the Overlord, or a sign of life from it. */
  predicate Hears(before: seq<Event>, e: Event, id: string) {
    || (e.Added? && e.id == id && !Registered(before, id))
    || (e.Heartbeat? && e.id == id && Registered(before, id))
    || (e.StatusPulled? && e.current && e.id == id && Registered(before, id))
  }

  /** When the Overlord was last heard of. */
  function LastHeard(es: seq<Event>, id: string): int {
    if es == [] then 0
    else
      var before, e := es[..|es| - 1], es[|es| - 1];
      if Hears(before, e, id) then e.now else LastHeard(before, id)
  }

  /** The state the Overlord reported last: unknown at first, running after a pull, and offline once it was found silent
      while running. */
  function StateOf(es: seq<Event>, id: string): AgentState
    decreases |es|, 0
  {
    if es == [] then Unknown
    else
      var before, e := es[..|es| - 1], es[|es| - 1];
      if Hears(before, e, id) then
        match e
        case Heartbeat(_, state, _, _, _) => state
        case StatusPulled(_, _, _, _, _, _) => Running
        case _ => Unknown
      else if e.Checked? && FoundSilent(before, e.now, e.timeout, id) then Offline
      else StateOf(before, id)
  }

  predicate FoundSilent(es: seq<Event>, now: int, timeout: int, id: string)
    decreases |es|, 1
  {
    Registered(es, id) && StateOf(es, id) == Running && now - LastHeard(es, id) > timeout
  }

  function OnlineCount(es: seq<Event>, id: string): int {
    if es == [] then 0
    else
      var before, e := es[..|es| - 1], es[|es| - 1];
      if Hears(before, e, id) then if e.Added? then 0 else e.onlineCount else OnlineCount(before, id)
  }

  /** What the fleet manager holds of a registered Overlord. */
  predicate IsHistory(es: seq<Event>, id: string) {
    && (id in After(es) <==> Registered(es, id))
    && (Registered(es, id) ==>
          After(es)[id] == Link(StateOf(es, id), LastHeard(es, id), ReportedCount(es, id), OnlineCount(es, id),
                                PulledWorkers(es, id)))
  }

  lemma {:induction false} FleetIsHistory(es: seq<Event>, id: string)
    ensures IsHistory(es, id)
  {
    if es != [] {
      var before, e := es[..|es| - 1], es[|es| - 1];
      FleetIsHistory(before, id);
      CachedIsLastReported(es, id);
      StepIs(After(before), e, id);
    }
  }

  lemma StepIs(f: Links, e: Event, id: string)
    ensures var g := Step(f, e);
            && (id in g <==> (e.Added? && e.id == id) || (id in f && !(e.Removed? && e.id == id)))
            && (id in g ==>
                  && g[id].state == (match e
                       case Added(a, _) => if a == id && id !in f then Unknown else f[id].state
                       case Heartbeat(a, state, _, _, _) => if a == id then state else f[id].state
                       case StatusPulled(a, current, _, _, _, _) => if a == id && current then Running else f[id].state
                       case Removed(_) => f[id].state
                       case Checked(now, timeout) =>
                         if f[id].state == Running && now - f[id].lastSeen > timeout then Offline else f[id].state)
                  && g[id].lastSeen == (match e
                       case Added(a, now) => if a == id && id !in f then now else f[id].lastSeen
                       case Heartbeat(a, _, _, _, now) => if a == id then now else f[id].lastSeen
                       case StatusPulled(a, current, _, _, _, now) =>
                         if a == id && current then now else f[id].lastSeen
                       case _ => f[id].lastSeen)
                  && g[id].onlineCount == (match e
                       case Added(a, _) => if a == id && id !in f then 0 else f[id].onlineCount
                       case Heartbeat(a, _, _, online, _) => if a == id then online else f[id].onlineCount
                       case StatusPulled(a, current, _, online, _, _) =>
                         if a == id && current then online else f[id].onlineCount
                       case _ => f[id].onlineCount))
  {
  }

  /** Exactly which Overlords a check reports: the registered ones that were last known to be running and have not been
      heard of for longer than the timeout. */
  lemma ReportedIff(es: seq<Event>, i: nat, id: string)
    requires i < |es| && es[i].Checked?
    ensures id in ReportedAt(es, i) <==> FoundSilent(es[..i], es[i].now, es[i].timeout, id)
  {
    FleetIsHistory(es[..i], id);
    if id in After(es[..i]) {
      StaleIff(After(es[..i]), es[i].now, es[i].timeout, id);
    }
  }

  /** A redirect is about exactly the workers, in their order, that the last pull of the dead Overlord listed, as long as
      both Overlords are registered. */
  lemma RedirectIsAboutPulled(es: seq<Event>, dead: string, target: string)
    ensures ToRedirect(After(es), dead, target)
         == if Registered(es, dead) && Registered(es, target) then PulledWorkers(es, dead) else []
  {
    FleetIsHistory(es, dead);
    FleetIsHistory(es, target);
  }
}
