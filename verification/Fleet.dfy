/** The fleet of Overlords: heartbeats, status pulls, the timeout check, the choice of a redirect target, and
    which workers a redirect is about.

    Times are integers; every step that reads the clock receives its time. */
module Fleet {

  datatype AgentState = Unknown | Running | Offline | OtherState(code: int)

  datatype Worker = Worker(id: string, addr: string)

  /** What the failover logic sees of a connection. */
  datatype Link = Link(state: AgentState, lastSeen: int, workerCount: int, onlineCount: int, workers: seq<Worker>)

  type Links = map<string, Link>

  // ---------- Steps ----------

  /** The steps that take the fleet's lock.  A status pull looks its connection up before the call and writes
      to it after the call; `current` says whether that connection is still the registered one. */
  datatype Event =
    | Added(id: string, now: int)
    | Removed(id: string)
    | Heartbeat(id: string, state: AgentState, workerCount: int, onlineCount: int, now: int)
    | StatusPulled(id: string, current: bool, workerCount: int, onlineCount: int, workers: seq<Worker>, now: int)
    | Checked(now: int, timeout: int)

  function Stale(f: Links, now: int, timeout: int): (ids: set<string>)
    ensures ids <= f.Keys
  {
    set id | id in f && f[id].state == Running && now - f[id].lastSeen > timeout
  }

  lemma StaleIff(f: Links, now: int, timeout: int, id: string)
    requires id in f
    ensures id in Stale(f, now, timeout) <==> f[id].state == Running && now - f[id].lastSeen > timeout
  {
  }

  function Step(f: Links, e: Event): Links {
    match e
    case Added(id, now) => if id in f then f else f[id := Link(Unknown, now, 0, 0, [])]
    case Removed(id) => f - {id}
    case Heartbeat(id, state, count, online, now) =>
      if id in f then f[id := Link(state, now, count, online, f[id].workers)] else f
    case StatusPulled(id, current, count, online, workers, now) =>
      if current && id in f then f[id := Link(Running, now, count, online, workers)] else f
    case Checked(now, timeout) =>
      map id | id in f :: if id in Stale(f, now, timeout) then f[id].(state := Offline) else f[id]
  }

  /** The sequence holds exactly the IDs of the set, each once. */
  ghost predicate Lists(ids: seq<string>, s: set<string>) {
    && (forall id :: id in ids <==> id in s)
    && (forall i, j :: 0 <= i < j < |ids| ==> ids[i] != ids[j])
  }

  lemma NothingListed(pending: set<string>, stale: set<string>)
    requires stale <= pending
    ensures Lists([], stale - pending)
  {
  }

  lemma ListsNext(ids: seq<string>, stale: set<string>, pending: set<string>, id: string)
    requires Lists(ids, stale - pending) && id in pending
    ensures Lists(if id in stale then ids + [id] else ids, stale - (pending - {id}))
  {
  }

  lemma ListsAll(ids: seq<string>, stale: set<string>)
    requires Lists(ids, stale - {})
    ensures (set id | id in ids) == stale && forall i, j :: 0 <= i < j < |ids| ==> ids[i] != ids[j]
  {
  }

  lemma CheckedIs(f: Links, g: Links, now: int, timeout: int)
    requires g.Keys == f.Keys
    requires forall id :: id in f ==> g[id] == if id in Stale(f, now, timeout) then f[id].(state := Offline) else f[id]
    ensures g == Step(f, Checked(now, timeout))
  {
    hide Stale;
  }

  lemma PulledIs(f: Links, g: Links, e: Event)
    requires e.StatusPulled? && g.Keys == f.Keys
    requires e.current ==> e.id in f && g[e.id] == Link(Running, e.now, e.workerCount, e.onlineCount, e.workers)
    requires forall a :: a in f && !(e.current && a == e.id) ==> g[a] == f[a]
    ensures g == Step(f, e)
  {
  }

  function After(es: seq<Event>): Links {
    if es == [] then map[] else Step(After(es[..|es| - 1]), es[|es| - 1])
  }

  /** The step marks a registered Overlord as running. */
  predicate SetsRunning(f: Links, e: Event, id: string) {
    id in f && ((e.Heartbeat? && e.id == id && e.state == Running) || (e.StatusPulled? && e.id == id && e.current))
  }

  predicate IsRunning(f: Links, id: string) {
    id in f && f[id].state == Running
  }

  /** The Overlords that step i of the run reports as stale. */
  function ReportedAt(es: seq<Event>, i: nat): set<string>
    requires i < |es|
  {
    if es[i].Checked? then Stale(After(es[..i]), es[i].now, es[i].timeout) else {}
  }

  // ---------- The fleet manager ----------

  class OverlordConnection {
    const overlordId: string
    const addr: string
    var state: AgentState
    var lastSeen: int
    var workerCount: int
    var onlineCount: int
    var workers: seq<Worker>

    constructor (overlordId: string, addr: string, now: int)
      ensures this.overlordId == overlordId && this.addr == addr && View() == Link(Unknown, now, 0, 0, [])
    {
      this.overlordId, this.addr := overlordId, addr;
      state, lastSeen := Unknown, now;
      workerCount, onlineCount, workers := 0, 0, [];
    }

    function View(): Link
      reads this
    {
      Link(state, lastSeen, workerCount, onlineCount, workers)
    }

    predicate Silent(timeout: int, now: int)
      reads this
      ensures Silent(timeout, now) <==> View().state == Running && now - View().lastSeen > timeout
    {
      state == Running && now - lastSeen > timeout
    }

    method Pull(workerCount: int, onlineCount: int, workers: seq<Worker>, now: int)
      modifies this
      ensures View() == Link(Running, now, workerCount, onlineCount, workers)
    {
      this.workerCount, this.onlineCount := workerCount, onlineCount;
      this.workers := workers;
      state := Running;
      lastSeen := now;
    }

    method MarkOffline()
      modifies this
      ensures View() == old(View()).(state := Offline)
    {
      state := Offline;
    }
  }

  class FleetManager {
    var overlords: map<string, OverlordConnection>

    /** No connection is registered under two IDs. */
    ghost predicate Valid()
      reads this
    {
      forall a, b :: a in overlords && b in overlords && a != b ==> overlords[a] != overlords[b]
    }

    ghost function View(): Links
      reads this, overlords.Values
    {
      map id | id in overlords :: overlords[id].View()
    }

    constructor ()
      ensures Valid() && overlords == map[]
    {
      overlords := map[];
    }

    method AddOverlord(id: string, addr: string, now: int) returns (ok: bool)
      requires Valid()
      modifies this
      ensures Valid() && ok == (id !in old(overlords))
      ensures View() == Step(old(View()), Added(id, now))
      ensures ok ==> id in overlords && overlords[id].overlordId == id && overlords[id].addr == addr
      ensures forall a :: a in old(overlords) ==> a in overlords && overlords[a] == old(overlords[a])
    {
      if id in overlords {
        return false;
      }
      var oc := new OverlordConnection(id, addr, now);
      overlords := overlords[id := oc];
      return true;
    }

    method RemoveOverlord(id: string) returns (ok: bool)
      requires Valid()
      modifies this
      ensures Valid() && ok == (id in old(overlords))
      ensures View() == Step(old(View()), Removed(id))
    {
      ok := id in overlords;
      overlords := overlords - {id};
    }

    /** An unknown Overlord is refused, so that it registers again. */
    method OverlordHeartbeat(id: string, state: AgentState, workerCount: int, onlineCount: int, now: int)
      returns (acknowledged: bool)
      requires Valid()
      modifies overlords.Values
      ensures Valid() && acknowledged == (id in overlords)
      ensures View() == Step(old(View()), Heartbeat(id, state, workerCount, onlineCount, now))
    {
      if id !in overlords {
        return false;
      }
      var oc := overlords[id];
      oc.state := state;
      oc.workerCount, oc.onlineCount := workerCount, onlineCount;
      oc.lastSeen := now;
      return true;
    }

    /** The second half of a status pull, on the connection looked up before the call.  A connection that was
        removed meanwhile is updated without effect on the fleet. */
    method CommitStatus(oc: OverlordConnection, id: string, workerCount: int, onlineCount: int,
                        workers: seq<Worker>, now: int)
      requires Valid() && forall a :: a in overlords && overlords[a] == oc ==> a == id
      modifies oc
      ensures Valid()
      ensures var current := id in overlords && overlords[id] == oc;
              View() == Step(old(View()), StatusPulled(id, current, workerCount, onlineCount, workers, now))
    {
      hide Step;
      ghost var before, current := View(), id in overlords && overlords[id] == oc;
      oc.Pull(workerCount, onlineCount, workers, now);
      hide OverlordConnection.View;
      PulledIs(before, View(), StatusPulled(id, current, workerCount, onlineCount, workers, now));
    }

    method CheckOverlordHeartbeatTimeouts(timeout: int, now: int) returns (staleIds: seq<string>)
      requires Valid()
      modifies overlords.Values
      ensures Valid()
      ensures View() == Step(old(View()), Checked(now, timeout))
      ensures (set id | id in staleIds) == Stale(old(View()), now, timeout)
      ensures forall i, j :: 0 <= i < j < |staleIds| ==> staleIds[i] != staleIds[j]
    {
      hide Stale, Step, Lists, OverlordConnection.View;
      NothingListed(overlords.Keys, Stale(View(), now, timeout));
      staleIds := [];
      ghost var before := View();
      ghost var stale := Stale(before, now, timeout);
      var pending := overlords.Keys;
      while pending != {}
        invariant pending <= overlords.Keys
        invariant Lists(staleIds, stale - pending)
        invariant forall id :: id in overlords ==>
          overlords[id].View() ==
          if id in stale - pending then before[id].(state := Offline) else before[id]
      {
        var id :| id in pending;
        StaleIff(before, now, timeout, id);
        ListsNext(staleIds, stale, pending, id);
        pending := pending - {id};
        var silent := MarkIfSilent(id, timeout, now);
        if silent {
          staleIds := staleIds + [id];
        }
      }
      CheckedIs(before, View(), now, timeout);
      ListsAll(staleIds, stale);
    }

    /** The loop body, on one connection. */
    method MarkIfSilent(id: string, timeout: int, now: int) returns (silent: bool)
      requires Valid() && id in overlords
      modifies overlords[id]
      ensures silent == old(overlords[id].Silent(timeout, now))
      ensures overlords[id].View() == if silent then old(overlords[id].View()).(state := Offline)
                                      else old(overlords[id].View())
      ensures forall a :: a in overlords && a != id ==> overlords[a].View() == old(overlords[a].View())
    {
      hide OverlordConnection.View;
      var oc := overlords[id];
      silent := oc.Silent(timeout, now);
      if silent {
        oc.MarkOffline();
      }
    }

    /** The ID of some running Overlord other than the excluded one; the empty string if there is none.  An
        Overlord whose own ID is empty therefore reads as none. */
    method FindHealthyOverlord(excludeId: string) returns (id: string)
      ensures || (id in overlords && id != excludeId && overlords[id].state == Running)
              || (id == "" && forall a :: a in overlords && a != excludeId ==> overlords[a].state != Running)
    {
      var pending := overlords.Keys;
      while pending != {}
        invariant pending <= overlords.Keys
        invariant forall a :: a in overlords && a !in pending && a != excludeId ==> overlords[a].state != Running
      {
        id :| id in pending;
        pending := pending - {id};
        if id != excludeId && overlords[id].state == Running {
          return id;
        }
      }
      return "";
    }

    /** The workers that a redirect is about, and the address they are sent to; nobody if one of the two Overlords
        was removed since it was chosen. */
    method WorkersToRedirect(deadId: string, targetId: string) returns (workers: seq<Worker>, newAddr: string)
      ensures workers == ToRedirect(View(), deadId, targetId)
      ensures deadId in overlords && targetId in overlords ==> newAddr == overlords[targetId].addr
    {
      if deadId !in overlords {
        return [], "";
      }
      if targetId !in overlords {
        return [], "";
      }
      return overlords[deadId].workers, overlords[targetId].addr;
    }
  }

  function ToRedirect(f: Links, dead: string, target: string): seq<Worker> {
    if dead in f && target in f then f[dead].workers else []
  }

  // ---------- Every run ----------

  lemma OnlySetsRunningStarts(f: Links, e: Event, id: string)
    requires IsRunning(Step(f, e), id) && !SetsRunning(f, e, id)
    ensures IsRunning(f, id)
  {
  }

  /** A stopped Overlord runs again only through a step that says so. */
  lemma {:induction false} RunningNeedsAStep(es: seq<Event>, i: nat, j: nat, id: string) returns (k: nat)
    requires i < j <= |es| && !IsRunning(After(es[..i + 1]), id) && IsRunning(After(es[..j]), id)
    ensures i < k < j && SetsRunning(After(es[..k]), es[k], id)
    decreases j
  {
    assert es[..j][..j - 1] == es[..j - 1];
    k := j - 1;
    if !SetsRunning(After(es[..k]), es[k], id) {
      OnlySetsRunningStarts(After(es[..k]), es[k], id);
      k := RunningNeedsAStep(es, i, j - 1, id);
    }
  }

  lemma ReportedIsStopped(es: seq<Event>, i: nat, id: string)
    requires i < |es| && id in ReportedAt(es, i)
    ensures IsRunning(After(es[..i]), id) && !IsRunning(After(es[..i + 1]), id)
  {
    assert es[..i + 1][..i] == es[..i];
  }

  /** An Overlord is reported stale a second time only if some step between the two reports set it running
      again, whatever else happens to the fleet in between. */
  lemma NoSecondReportWithoutRecovery(es: seq<Event>, i: nat, j: nat, id: string) returns (k: nat)
    requires i < j < |es| && id in ReportedAt(es, i) && id in ReportedAt(es, j)
    ensures i < k < j && SetsRunning(After(es[..k]), es[k], id)
  {
    ReportedIsStopped(es, i, id);
    ReportedIsStopped(es, j, id);
    k := RunningNeedsAStep(es, i, j, id);
  }

  /** A redirect target, found running after the check of step i reported its batch, is itself in the batch
      only if some step in between set it running again. */
  lemma TargetIsNotInBatch(es: seq<Event>, i: nat, j: nat, target: string) returns (k: nat)
    requires i < j <= |es| && IsRunning(After(es[..j]), target) && target in ReportedAt(es, i)
    ensures i < k < j && SetsRunning(After(es[..k]), es[k], target)
  {
    ReportedIsStopped(es, i, target);
    k := RunningNeedsAStep(es, i, j, target);
  }

  /** The step is a sign of life of a registered Overlord, or its registration. */
  predicate Contacts(f: Links, e: Event, id: string) {
    || (e.Heartbeat? && e.id == id && id in f)
    || (e.StatusPulled? && e.id == id && e.current && id in f)
    || (e.Added? && e.id == id && id !in f)
  }

  predicate ClockForward(es: seq<Event>) {
    forall i, j :: 0 <= i < j < |es| && !es[i].Removed? && !es[j].Removed? ==> es[i].now <= es[j].now
  }

  lemma {:induction false} LastSeenIsLatest(es: seq<Event>, k: nat, id: string)
    requires ClockForward(es) && k < |es| && Contacts(After(es[..k]), es[k], id) && id in After(es)
    ensures After(es)[id].lastSeen >= es[k].now
  {
    var n := |es| - 1;
    var before := After(es[..n]);
    if k < n {
      assert es[..n][..k] == es[..k];
      if id in before {
        LastSeenIsLatest(es[..n], k, id);
      }
    }
  }

  /** A reported Overlord has been silent: every sign of life before the report is older than the timeout. */
  lemma ReportedWasSilent(es: seq<Event>, i: nat, k: nat, id: string)
    requires ClockForward(es) && k < i < |es| && id in ReportedAt(es, i)
    requires Contacts(After(es[..k]), es[k], id)
    ensures es[i].now - es[k].now > es[i].timeout
  {
    assert es[..i][..k] == es[..k];
    LastSeenIsLatest(es[..i], k, id);
  }

  // ---------- The cached worker list and the reported worker count ----------

  predicate Pulls(f: Links, e: Event, id: string) {
    e.StatusPulled? && e.id == id && e.current && id in f
  }

  predicate Reports(f: Links, e: Event, id: string) {
    Pulls(f, e, id) || (e.Heartbeat? && e.id == id && id in f)
  }

  /** The list of the last status pull since the Overlord was registered. */
  function PulledWorkers(es: seq<Event>, id: string): seq<Worker> {
    if es == [] then []
    else
      var before, e := es[..|es| - 1], es[|es| - 1];
      if Pulls(After(before), e, id) then e.workers
      else if e.Removed? && e.id == id then []
      else PulledWorkers(before, id)
  }

  /** The count of the last heartbeat or status pull since the Overlord was registered. */
  function ReportedCount(es: seq<Event>, id: string): int {
    if es == [] then 0
    else
      var before, e := es[..|es| - 1], es[|es| - 1];
      if Reports(After(before), e, id) then e.workerCount
      else if e.Removed? && e.id == id then 0
      else ReportedCount(before, id)
  }

  lemma {:induction false} CachedIsLastReported(es: seq<Event>, id: string)
    ensures id in After(es) ==>
              After(es)[id].workers == PulledWorkers(es, id) && After(es)[id].workerCount == ReportedCount(es, id)
    ensures id !in After(es) ==> PulledWorkers(es, id) == [] && ReportedCount(es, id) == 0
  {
    hide Stale;
    if es != [] {
      CachedIsLastReported(es[..|es| - 1], id);
    }
  }

  const SECOND: int := 1_000_000_000

  /** A run in which a reported Overlord has workers and no one is redirected: it sent heartbeats, which carry
      only the number of its workers, and died before the first status pull. */
  function NeverPulled(): seq<Event> {
    [Added("a", 0), Added("b", 0), Heartbeat("a", Running, 3, 3, 0), Heartbeat("b", Running, 0, 0, 95 * SECOND),
     Checked(95 * SECOND, 90 * SECOND)]
  }

  lemma BeforeTheCheck()
    ensures After(NeverPulled()[..4])
         == map["a" := Link(Running, 0, 3, 3, []), "b" := Link(Running, 95 * SECOND, 0, 0, [])]
  {
    hide After, Stale;
    var es := NeverPulled();
    AfterNothing(es);
    AfterStep(es, 0);
    assert After(es[..1]) == map["a" := Link(Unknown, 0, 0, 0, [])];
    AfterStep(es, 1);
    assert After(es[..2]) == map["a" := Link(Unknown, 0, 0, 0, []), "b" := Link(Unknown, 0, 0, 0, [])];
    AfterStep(es, 2);
    assert After(es[..3]) == map["a" := Link(Running, 0, 3, 3, []), "b" := Link(Unknown, 0, 0, 0, [])];
    AfterStep(es, 3);
  }

  lemma AfterNothing(es: seq<Event>)
    ensures After(es[..0]) == map[]
  {
  }

  lemma NeverPulledIsNotRedirected()
    ensures var es := NeverPulled();
            && ReportedAt(es, 4) == {"a"} && IsRunning(After(es), "b")
            && "a" in After(es) && After(es)["a"].workerCount == 3 && ToRedirect(After(es), "a", "b") == []
  {
    hide After;
    var es := NeverPulled();
    BeforeTheCheck();
    AfterStep(es, 4);
    assert es[..5] == es;
  }

  lemma AfterStep(es: seq<Event>, k: nat)
    requires k < |es|
    ensures After(es[..k + 1]) == Step(After(es[..k]), es[k])
  {
    assert es[..k + 1][..k] == es[..k];
  }
}
