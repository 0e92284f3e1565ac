/**
 Whole runs: poller workers competing for the advisory lock, a poll working
 through its ONUs with a snapshot that may be stale from the start, and ticket
 actions of users in between, in any order.
 */
module AlarmRuns {
  import opened Options
  import opened AlarmStore
  import opened AlarmLaws
  import opened AlarmPoll

  type Key = (nat, AlarmType)

  /** A poll in progress: the alarms it still has to steer, and the snapshot it took at its start. */
  datatype Poll = Poll(todo: seq<Key>, known: Snapshot)

  /** What a worker's transaction sees: the store as it was when the view was taken, with the worker's own steering
      on top. `done` are the alarms it has steered since. */
  datatype View = View(seen: Store, done: set<Key>)

  datatype System = System(store: Store, lock: Option<nat>, polls: map<nat, Poll>, views: map<nat, View>)

  /** What a poll does about one alarm; it leaves it alone without a reading. */
  datatype Decision = Skip | Want(wanted: bool, severity: Severity, rx: Option<int>)

  datatype Event =
    | TakeLock(worker: nat)
    | ReadView(worker: nat)
    | StartPoll(worker: nat, todo: seq<Key>, known: Snapshot)
    | PollStep(worker: nat, decision: Decision, pick: Option<UserId>)
    | EndPoll(worker: nat)
    | ReleaseLock(worker: nat)
    | AssignEvent(t: TicketId, technician: nat)
    | AcknowledgeEvent(actor: Actor, t: TicketId, ackNotes: Option<string>)
    | ResolveEvent(t: TicketId, notes: string)
    | CloseEvent(actor: Actor, t: TicketId, probe: Probe, closeNotes: string)
    | DeleteOnuEvent(onu: nat)

  predicate DistinctKeys(todo: seq<Key>) {
    forall i, j :: 0 <= i < j < |todo| ==> todo[i] != todo[j]
  }

  function OnuIds(todo: seq<Key>): set<nat> {
    set k | k in todo :: k.0
  }

  /** A worker polls only while it holds the lock. Its snapshot is taken from its view, which one transaction for
      all OLTs lets grow old, and a pass visits every alarm once. */
  ghost predicate Enabled(y: System, e: Event) {
    match e
    case TakeLock(w) => y.lock.None?
    case ReadView(w) => y.lock == Some(w) && w !in y.polls
    case StartPoll(w, todo, known) =>
      && w in y.views && w !in y.polls
      && DistinctKeys(todo) && (forall k :: k in todo ==> k !in y.views[w].done)
      && IsSnapshot(known, y.views[w].seen, OnuIds(todo))
    case PollStep(w, decision, pick) =>
      w in y.polls && y.polls[w].todo != [] && IsNextTechnician(y.store.users, pick)
    case EndPoll(w) => w in y.polls
    case ReleaseLock(w) => y.lock == Some(w) && w !in y.polls
    case _ => true
  }

  function SteerStep(s: Store, known: Snapshot, key: Key, d: Decision, pick: Option<UserId>): Store
    requires key in known ==> known[key] in s.alarms
    requires pick.Some? ==> pick.value in s.users
  {
    if d.Skip? then s else Steer(s, known, key.0, key.1, d.wanted, d.severity, d.rx, pick)
  }

  /** What a poll may rely on in the middle of a run. */
  ghost predicate Usable(s: Store, p: Poll) {
    DistinctKeys(p.todo) && KnownRows(s, p.known) && KnowsActive(s, p)
  }

  /** The rows the snapshot names still exist and belong to the key they were found under, if to any. */
  ghost predicate KnownRows(s: Store, known: Snapshot) {
    forall key :: key in known ==>
      && known[key] in s.alarms
      && s.alarms[known[key]].kind == key.1
      && (s.alarms[known[key]].onu == Some(key.0) || s.alarms[known[key]].onu == None)
  }

  /** An alarm still to be steered that is active is in the snapshot. */
  ghost predicate KnowsActive(s: Store, p: Poll) {
    forall key :: key in p.todo && Alarmed(s, key.0, key.1) ==> key in p.known
  }

  /** A view that has grown old: since it was taken alarms only went onward, and only steering has activated any. */
  ghost predicate StillSeen(s: Store, v: View) {
    && Onward(v.seen, s)
    && forall k: Key :: k !in v.done && Alarmed(s, k.0, k.1) ==> Alarmed(v.seen, k.0, k.1)
  }

  ghost predicate PollsFit(y: System) {
    forall w :: w in y.polls ==>
      && y.lock == Some(w) && w in y.views && Usable(y.store, y.polls[w])
      && forall k :: k in y.polls[w].todo ==> k !in y.views[w].done
  }

  ghost predicate ViewsFit(y: System) {
    forall w :: w in y.views ==> y.lock == Some(w) && StillSeen(y.store, y.views[w])
  }

  ghost predicate Inv(y: System) {
    Sound(y.store) && PollsFit(y) && ViewsFit(y)
  }

  predicate IsTicketEvent(e: Event) {
    e.AssignEvent? || e.AcknowledgeEvent? || e.ResolveEvent? || e.CloseEvent? || e.DeleteOnuEvent?
  }

  /** What a user's action makes of the store. */
  function Acted(s: Store, e: Event): Store
    requires IsTicketEvent(e)
  {
    match e
    case AssignEvent(t, technician) => AssignTicket(s, t, technician)
    case AcknowledgeEvent(actor, t, notes) => AcknowledgeTicket(s, actor, t, notes)
    case ResolveEvent(t, notes) => ResolveTicket(s, t, notes)
    case CloseEvent(actor, t, probe, notes) => CloseTicket(s, actor, t, probe, notes)
    case DeleteOnuEvent(onu) => DeleteOnu(s, onu)
  }

  /** What a worker's event makes of the system. */
  ghost function Polled(y: System, e: Event): System
    requires Inv(y) && Enabled(y, e) && !IsTicketEvent(e)
  {
    var s := y.store;
    match e
    case TakeLock(w) => y.(lock := Some(w))
    case ReadView(w) => y.(views := y.views[w := View(s, {})])
    case StartPoll(w, todo, known) => y.(polls := y.polls[w := Poll(todo, known)])
    case PollStep(w, d, pick) =>
      var p := y.polls[w];
      y.(store := SteerStep(s, p.known, p.todo[0], d, pick), polls := y.polls[w := p.(todo := p.todo[1..])],
         views := y.views[w := y.views[w].(done := y.views[w].done + {p.todo[0]})])
    case EndPoll(w) => y.(polls := y.polls - {w})
    case ReleaseLock(w) => y.(lock := None, views := y.views - {w})
  }

  ghost function Step(y: System, e: Event): System
    requires Inv(y)
  {
    if IsTicketEvent(e) then y.(store := Acted(y.store, e))
    else if Enabled(y, e) then Polled(y, e)
    else y
  }

  // ------------------------------------------------- what the store may become

  /** Alarms only come and get resolved: none goes, and none returns to active. */
  ghost predicate Onward(s: Store, s': Store) {
    && s.alarms.Keys <= s'.alarms.Keys
    && forall a :: a in s.alarms ==> AlarmStep(s.alarms[a], s'.alarms[a])
  }

  lemma AlarmedBefore(s: Store, s': Store, onu: nat, kind: AlarmType)
    requires OnlyResolves(s, s') && Alarmed(s', onu, kind)
    ensures Alarmed(s, onu, kind)
  {
    var a :| IsActive(s', a, onu, kind);
    assert IsActive(s, a, onu, kind);
  }

  /** Whatever users do, a poll in progress can rely on what it relied on before. */
  lemma ActionsKeepUsable(s: Store, s': Store, p: Poll)
    requires Usable(s, p) && OnlyResolves(s, s')
    ensures Usable(s', p)
  {
    forall key | key in p.todo && Alarmed(s', key.0, key.1) ensures key in p.known {
      AlarmedBefore(s, s', key.0, key.1);
    }
  }

  lemma OnwardTrans(s0: Store, s1: Store, s2: Store)
    requires Onward(s0, s1) && Onward(s1, s2)
    ensures Onward(s0, s2)
  {
  }

  lemma ActionsKeepViews(s: Store, s': Store, v: View)
    requires StillSeen(s, v) && OnlyResolves(s, s')
    ensures StillSeen(s', v)
  {
    OnwardTrans(v.seen, s, s');
    forall k: Key | k !in v.done && Alarmed(s', k.0, k.1) ensures Alarmed(v.seen, k.0, k.1) {
      AlarmedBefore(s, s', k.0, k.1);
    }
  }

  lemma ActionKeepsInv(y: System, s': Store)
    requires Inv(y) && Evolves(y.store, s')
    ensures Inv(y.(store := s'))
  {
    EvolvingIsSound(y.store, s');
    forall w | w in y.polls ensures Usable(s', y.polls[w]) {
      ActionsKeepUsable(y.store, s', y.polls[w]);
    }
    forall w | w in y.views ensures StillSeen(s', y.views[w]) {
      ActionsKeepViews(y.store, s', y.views[w]);
    }
  }

  lemma SteerStepIsOnward(s: Store, known: Snapshot, key: Key, d: Decision, pick: Option<UserId>)
    requires Sound(s) && (key in known ==> known[key] in s.alarms) && (pick.Some? ==> pick.value in s.users)
    ensures Onward(s, SteerStep(s, known, key, d, pick))
  {
    if d.Want? {
      if d.wanted {
        assert AlarmId(s.nextAlarm) !in s.alarms;
      } else if key in known {
        ResolveAlarmEvolves(s, known[key]);
      }
    }
  }

  lemma KnownRowsStay(s: Store, s': Store, known: Snapshot)
    requires KnownRows(s, known) && Onward(s, s')
    ensures KnownRows(s', known)
  {
  }

  lemma SteerStepIsLocal(s: Store, p: Poll, d: Decision, pick: Option<UserId>, k: Key)
    requires Sound(s) && KnownRows(s, p.known) && p.todo != [] && (pick.Some? ==> pick.value in s.users)
    requires k != p.todo[0]
    ensures SameAlarm(s, SteerStep(s, p.known, p.todo[0], d, pick), k.0, k.1)
  {
    var key := p.todo[0];
    if d.Want? {
      SteerIsLocal(s, p.known, key.0, key.1, d.wanted, d.severity, d.rx, pick, k.0, k.1);
    }
  }

  lemma SteerStepKnowsActive(s: Store, p: Poll, d: Decision, pick: Option<UserId>)
    requires Sound(s) && Usable(s, p) && p.todo != [] && (pick.Some? ==> pick.value in s.users)
    ensures KnowsActive(SteerStep(s, p.known, p.todo[0], d, pick), p.(todo := p.todo[1..]))
  {
    var s' := SteerStep(s, p.known, p.todo[0], d, pick);
    forall k: Key | k in p.todo[1..] && Alarmed(s', k.0, k.1) ensures k in p.known {
      assert k in p.todo && k != p.todo[0];
      SteerStepIsLocal(s, p, d, pick, k);
      AlarmStays(s, s', k.0, k.1);
    }
  }

  lemma SteerStepIsUsable(s: Store, p: Poll, d: Decision, pick: Option<UserId>)
    requires Sound(s) && Usable(s, p) && p.todo != [] && (pick.Some? ==> pick.value in s.users)
    ensures
      var s' := SteerStep(s, p.known, p.todo[0], d, pick);
      Sound(s') && Usable(s', p.(todo := p.todo[1..]))
  {
    var key, s' := p.todo[0], SteerStep(s, p.known, p.todo[0], d, pick);
    SteerStepIsOnward(s, p.known, key, d, pick);
    KnownRowsStay(s, s', p.known);
    SteerStepKnowsActive(s, p, d, pick);
    if d.Want? {
      assert key in p.todo;
      SteerIsSound(s, p.known, key.0, key.1, d.wanted, d.severity, d.rx, pick);
    }
  }

  /** A snapshot taken from an old view is still usable. */
  lemma SnapshotIsUsable(s: Store, v: View, todo: seq<Key>, known: Snapshot)
    requires StillSeen(s, v) && DistinctKeys(todo) && IsSnapshot(known, v.seen, OnuIds(todo))
    requires forall k :: k in todo ==> k !in v.done
    ensures Usable(s, Poll(todo, known))
  {
    forall key | key in todo && Alarmed(s, key.0, key.1) ensures key in known {
      assert Alarmed(v.seen, key.0, key.1);
      var a :| IsActive(v.seen, a, key.0, key.1);
    }
    forall key | key in known ensures known[key] in s.alarms && AlarmStep(v.seen.alarms[known[key]], s.alarms[known[key]]) {
      assert IsActive(v.seen, known[key], key.0, key.1);
    }
  }

  lemma FreshView(s: Store)
    ensures StillSeen(s, View(s, {}))
  {
  }

  lemma SteerStepKeepsView(s: Store, v: View, p: Poll, d: Decision, pick: Option<UserId>)
    requires Sound(s) && StillSeen(s, v) && Usable(s, p) && p.todo != [] && (pick.Some? ==> pick.value in s.users)
    ensures StillSeen(SteerStep(s, p.known, p.todo[0], d, pick), v.(done := v.done + {p.todo[0]}))
  {
    var s' := SteerStep(s, p.known, p.todo[0], d, pick);
    SteerStepIsOnward(s, p.known, p.todo[0], d, pick);
    OnwardTrans(v.seen, s, s');
    forall k: Key | k !in v.done + {p.todo[0]} && Alarmed(s', k.0, k.1) ensures Alarmed(v.seen, k.0, k.1) {
      SteerStepIsLocal(s, p, d, pick, k);
      AlarmStays(s, s', k.0, k.1);
    }
  }

  lemma PollStepKeepsInv(y: System, e: Event)
    requires Inv(y) && Enabled(y, e) && e.PollStep?
    ensures Inv(Step(y, e))
  {
    var w := e.worker;
    var p, v, y' := y.polls[w], y.views[w], Step(y, e);
    SteerStepIsUsable(y.store, p, e.decision, e.pick);
    SteerStepKeepsView(y.store, v, p, e.decision, e.pick);
    OnlyOne(y, w);
    forall k | k in p.todo[1..] ensures k !in v.done + {p.todo[0]} {
      assert k in p.todo;
      var i :| 0 <= i < |p.todo| - 1 && p.todo[1..][i] == k;
      assert p.todo[0] != p.todo[i + 1];
    }
  }

  /** The lock holder is the only worker with a poll or a view. */
  lemma OnlyOne(y: System, w: nat)
    requires Inv(y) && w in y.polls
    ensures forall u :: u in y.polls || u in y.views ==> u == w
  {
  }

  lemma ActedEvolves(s: Store, e: Event)
    requires IsTicketEvent(e) && Linked(s) && SettledMeansResolved(s)
    ensures Evolves(s, Acted(s, e))
  {
    match e
    case AssignEvent(t, technician) => AssignTicketEvolves(s, t, technician);
    case AcknowledgeEvent(actor, t, notes) => AcknowledgeTicketEvolves(s, actor, t, notes);
    case ResolveEvent(t, notes) => ResolveTicketEvolves(s, t, notes);
    case CloseEvent(actor, t, probe, notes) => CloseTicketEvolves(s, actor, t, probe, notes);
    case DeleteOnuEvent(onu) => DeleteOnuEvolves(s, onu);
  }

  lemma TicketEventKeepsInv(y: System, e: Event)
    requires Inv(y) && IsTicketEvent(e)
    ensures Inv(Step(y, e)) && Evolves(y.store, Step(y, e).store)
  {
    StepActs(y, e);
    ActedEvolves(y.store, e);
    ActionKeepsInv(y, Acted(y.store, e));
  }

  lemma StepActs(y: System, e: Event)
    requires Inv(y) && IsTicketEvent(e)
    ensures Step(y, e) == y.(store := Acted(y.store, e))
  {
  }

  lemma LockKeepsInv(y: System, e: Event)
    requires Inv(y) && Enabled(y, e) && (e.TakeLock? || e.EndPoll? || e.ReleaseLock?)
    ensures Inv(Step(y, e))
  {
  }

  lemma ViewKeepsInv(y: System, w: nat)
    requires Inv(y) && Enabled(y, ReadView(w))
    ensures Inv(Step(y, ReadView(w)))
  {
    FreshView(y.store);
  }

  lemma StartKeepsInv(y: System, e: Event)
    requires Inv(y) && Enabled(y, e) && e.StartPoll?
    ensures Inv(Step(y, e))
  {
    SnapshotIsUsable(y.store, y.views[e.worker], e.todo, e.known);
  }

  lemma OtherEventKeepsInv(y: System, e: Event)
    requires Inv(y) && Enabled(y, e) && !IsTicketEvent(e) && !e.PollStep?
    ensures Inv(Step(y, e)) && Step(y, e).store == y.store
  {
    if e.ReadView? { ViewKeepsInv(y, e.worker); }
    else if e.StartPoll? { StartKeepsInv(y, e); }
    else { LockKeepsInv(y, e); }
  }

  lemma StepKeepsInv(y: System, e: Event)
    requires Inv(y)
    ensures Inv(Step(y, e)) && Onward(y.store, Step(y, e).store)
  {
    if IsTicketEvent(e) {
      TicketEventKeepsInv(y, e);
    } else if Enabled(y, e) {
      if e.PollStep? {
        var p := y.polls[e.worker];
        PollStepKeepsInv(y, e);
        SteerStepIsOnward(y.store, p.known, p.todo[0], e.decision, e.pick);
      } else {
        OtherEventKeepsInv(y, e);
      }
    }
  }

  ghost function Run(y: System, es: seq<Event>): (y': System)
    requires Inv(y)
    ensures Inv(y')
    decreases |es|
  {
    if es == [] then y
    else
      StepKeepsInv(y, es[0]);
      Run(Step(y, es[0]), es[1..])
  }

  /** A system no poll is running in. */
  ghost predicate AtRest(y: System) {
    Sound(y.store) && y.polls == map[] && y.views == map[]
  }

  /** In every reachable state, stale snapshots and interleaved ticket actions included, there is at most one
      active alarm per ONU and type, every alarm has exactly one ticket, settled tickets have resolved alarms,
      and exactly the resolved alarms carry a resolution time. */
  lemma AlwaysSound(y: System, es: seq<Event>)
    requires AtRest(y)
    ensures
      var s := Run(y, es).store;
      OneActive(s) && OneTicketEach(s) && SettledMeansResolved(s) && Stamped(s)
  {
  }

  /** Alarms are never lost and a resolved alarm is never active again, over any run. */
  lemma {:induction false} NeverReactivated(y: System, es: seq<Event>, a: AlarmId)
    requires Inv(y) && a in y.store.alarms
    ensures a in Run(y, es).store.alarms
    ensures y.store.alarms[a].status.Resolved? ==> Run(y, es).store.alarms[a].status.Resolved?
    decreases |es|
  {
    if es != [] {
      StepKeepsInv(y, es[0]);
      NeverReactivated(Step(y, es[0]), es[1..], a);
    }
  }

  /** An active alarm has a live ticket in every reachable state. */
  lemma ActiveHasLiveTicket(y: System, es: seq<Event>, a: AlarmId) returns (t: TicketId)
    requires AtRest(y) && a in Run(y, es).store.alarms && Run(y, es).store.alarms[a].status.Active?
    ensures
      var s := Run(y, es).store;
      t in s.tickets && s.tickets[t].alarm == a && !Terminal(s.tickets[t].status)
  {
    var s := Run(y, es).store;
    assert HasTicket(s, a);
    t :| t in s.tickets && s.tickets[t].alarm == a;
  }

  // ------------------------------------------------- runs with guarded assignment

  /** Assignments in the run are made to live tickets only. */
  ghost predicate AssignsLiveOnly(y: System, es: seq<Event>)
    requires Inv(y)
    decreases |es|
  {
    if es == [] then true
    else
      StepKeepsInv(y, es[0]);
      && (es[0].AssignEvent? && es[0].t in y.store.tickets ==> !Terminal(y.store.tickets[es[0].t].status))
      && AssignsLiveOnly(Step(y, es[0]), es[1..])
  }

  lemma SteerStepKeepsConverse(s: Store, known: Snapshot, key: Key, d: Decision, pick: Option<UserId>)
    requires Sound(s) && ResolvedMeansSettled(s)
    requires (key in known ==> known[key] in s.alarms) && (pick.Some? ==> pick.value in s.users)
    ensures ResolvedMeansSettled(SteerStep(s, known, key, d, pick))
  {
    if d.Want? {
      if d.wanted {
        assert AlarmId(s.nextAlarm) !in s.alarms;
        assert TicketId(s.nextTicket) !in s.tickets;
      } else if key in known {
        ResolveAlarmKeepsConverse(s, known[key]);
      }
    }
  }

  lemma ActedKeepsConverse(s: Store, e: Event)
    requires Sound(s) && ResolvedMeansSettled(s) && IsTicketEvent(e)
    requires e.AssignEvent? && e.t in s.tickets ==> !Terminal(s.tickets[e.t].status)
    ensures ResolvedMeansSettled(Acted(s, e))
  {
    match e
    case AssignEvent(t, technician) => AssignKeepsConverseIff(s, t, technician);
    case AcknowledgeEvent(actor, t, notes) => AcknowledgeKeepsConverse(s, actor, t, notes);
    case ResolveEvent(t, notes) => ResolveTicketKeepsConverse(s, t, notes);
    case CloseEvent(actor, t, probe, notes) => CloseTicketKeepsConverse(s, actor, t, probe, notes);
    case DeleteOnuEvent(onu) =>
  }

  lemma StepKeepsConverse(y: System, e: Event)
    requires Inv(y) && ResolvedMeansSettled(y.store)
    requires e.AssignEvent? && e.t in y.store.tickets ==> !Terminal(y.store.tickets[e.t].status)
    ensures ResolvedMeansSettled(Step(y, e).store)
  {
    if IsTicketEvent(e) {
      StepActs(y, e);
      ActedKeepsConverse(y.store, e);
    } else if e.PollStep? && Enabled(y, e) {
      var p := y.polls[e.worker];
      SteerStepKeepsConverse(y.store, p.known, p.todo[0], e.decision, e.pick);
    }
  }

  /** Then tickets and alarms are settled together, in both directions, over the whole run. */
  lemma {:induction false} SettledTogether(y: System, es: seq<Event>)
    requires Inv(y) && ResolvedMeansSettled(y.store) && AssignsLiveOnly(y, es)
    ensures
      var s := Run(y, es).store;
      forall t :: t in s.tickets ==>
        (Terminal(s.tickets[t].status) <==> s.alarms[s.tickets[t].alarm].status.Resolved?)
    decreases |es|
  {
    if es != [] {
      StepKeepsInv(y, es[0]);
      StepKeepsConverse(y, es[0]);
      SettledTogether(Step(y, es[0]), es[1..]);
      assert Run(y, es) == Run(Step(y, es[0]), es[1..]);
    } else {
      var s := Run(y, es).store;
      forall t | t in s.tickets
        ensures Terminal(s.tickets[t].status) <==> s.alarms[s.tickets[t].alarm].status.Resolved? {
        assert Linked(s) && SettledMeansResolved(s);
      }
    }
  }

  // --------------------------------------------------- the level, while nobody interferes

  /** Users' actions leave this alarm of this ONU as it is. */
  ghost predicate Untouched(y: System, es: seq<Event>, k: Key)
    requires Inv(y)
    decreases |es|
  {
    if es == [] then true
    else
      StepKeepsInv(y, es[0]);
      && (IsTicketEvent(es[0]) ==> SameAlarm(y.store, Step(y, es[0]).store, k.0, k.1))
      && Untouched(Step(y, es[0]), es[1..], k)
  }

  ghost predicate Steers(y: System, e: Event, k: Key) {
    e.PollStep? && Enabled(y, e) && y.polls[e.worker].todo[0] == k && e.decision.Want?
  }

  /** What the last decision about this alarm wanted, or what was there before any. */
  ghost function Level(y: System, es: seq<Event>, k: Key, before: bool): bool
    requires Inv(y)
    decreases |es|
  {
    if es == [] then before
    else
      StepKeepsInv(y, es[0]);
      Level(Step(y, es[0]), es[1..], k, if Steers(y, es[0], k) then es[0].decision.wanted else before)
  }

  /** Views and snapshots are right about this alarm as long as it is still to be steered. */
  ghost predicate RightAbout(y: System, k: Key) {
    && (forall w :: w in y.polls && k in y.polls[w].todo ==> Fits(y.store, y.polls[w].known, k.0, k.1))
    && (forall w :: w in y.views && k !in y.views[w].done ==> SameAlarm(y.views[w].seen, y.store, k.0, k.1))
  }

  lemma SameStaysRight(y: System, y': System, k: Key)
    requires RightAbout(y, k) && SameAlarm(y.store, y'.store, k.0, k.1)
    requires forall w :: w in y'.polls && k in y'.polls[w].todo ==>
      w in y.polls && k in y.polls[w].todo && y'.polls[w].known == y.polls[w].known
    requires forall w :: w in y'.views && k !in y'.views[w].done ==>
      w in y.views && k !in y.views[w].done && y'.views[w].seen == y.views[w].seen
    ensures RightAbout(y', k) && (Alarmed(y.store, k.0, k.1) <==> Alarmed(y'.store, k.0, k.1))
  {
    AlarmStays(y.store, y'.store, k.0, k.1);
    forall w | w in y'.polls && k in y'.polls[w].todo ensures Fits(y'.store, y'.polls[w].known, k.0, k.1) {
      FitsStays(y.store, y'.store, y.polls[w].known, k.0, k.1);
    }
  }

  lemma StartStaysRight(y: System, e: Event, k: Key)
    requires Inv(y) && RightAbout(y, k) && Enabled(y, e) && e.StartPoll?
    ensures RightAbout(Step(y, e), k) && Step(y, e).store == y.store
  {
    if k in e.todo {
      var v := y.views[e.worker];
      assert k.0 in OnuIds(e.todo);
      SnapshotFits(e.known, v.seen, y.store, OnuIds(e.todo), k.0, k.1);
    }
  }

  lemma SteeringIsRight(y: System, e: Event, k: Key)
    requires Inv(y) && RightAbout(y, k) && Enabled(y, e) && e.PollStep?
    ensures RightAbout(Step(y, e), k)
    ensures Alarmed(Step(y, e).store, k.0, k.1) <==>
      if Steers(y, e, k) then e.decision.wanted else Alarmed(y.store, k.0, k.1)
  {
    var p, y' := y.polls[e.worker], Step(y, e);
    OnlyOne(y, e.worker);
    if p.todo[0] == k && e.decision.Want? {
      assert k in p.todo;
      SteerReachesLevel(
        y.store, p.known, k.0, k.1, e.decision.wanted, e.decision.severity, e.decision.rx, e.pick);
      assert k !in p.todo[1..] by {
        assert forall i :: 0 < i < |p.todo| ==> p.todo[i] != p.todo[0];
      }
    } else {
      if p.todo[0] != k { SteerStepIsLocal(y.store, p, e.decision, e.pick, k); }
      SameStaysRight(y, y', k);
    }
  }

  lemma StepIsRight(y: System, e: Event, k: Key)
    requires Inv(y) && RightAbout(y, k)
    requires IsTicketEvent(e) ==> SameAlarm(y.store, Step(y, e).store, k.0, k.1)
    ensures RightAbout(Step(y, e), k)
    ensures Alarmed(Step(y, e).store, k.0, k.1) <==>
      if Steers(y, e, k) then e.decision.wanted else Alarmed(y.store, k.0, k.1)
  {
    if IsTicketEvent(e) {
      SameStaysRight(y, Step(y, e), k);
    } else if Enabled(y, e) {
      if e.PollStep? { SteeringIsRight(y, e, k); }
      else if e.StartPoll? { StartStaysRight(y, e, k); }
      else { OtherStaysRight(y, e, k); }
    }
  }

  lemma OtherStaysRight(y: System, e: Event, k: Key)
    requires Inv(y) && RightAbout(y, k) && Enabled(y, e)
    requires e.TakeLock? || e.ReadView? || e.EndPoll? || e.ReleaseLock?
    ensures RightAbout(Step(y, e), k) && Step(y, e).store == y.store
  {
  }

  lemma {:induction false} LevelFrom(y: System, es: seq<Event>, k: Key)
    requires Inv(y) && RightAbout(y, k) && Untouched(y, es, k)
    ensures Alarmed(Run(y, es).store, k.0, k.1) <==> Level(y, es, k, Alarmed(y.store, k.0, k.1))
    decreases |es|
  {
    if es != [] {
      StepKeepsInv(y, es[0]);
      StepIsRight(y, es[0], k);
      LevelFrom(Step(y, es[0]), es[1..], k);
      assert Run(y, es) == Run(Step(y, es[0]), es[1..]);
    }
  }

  /** In every run, passes with old views and actions on other alarms included, an alarm that no user's action
      touches is active if and only if the last decision about it wanted it. */
  lemma LevelReached(y: System, es: seq<Event>, k: Key)
    requires AtRest(y) && Untouched(y, es, k)
    ensures Alarmed(Run(y, es).store, k.0, k.1) <==> Level(y, es, k, Alarmed(y.store, k.0, k.1))
  {
    LevelFrom(y, es, k);
  }

  // ------------------------------------------------------- why one poller at a time

  /** Two polls whose snapshots both predate an alarm would raise it twice. */
  lemma TwoPollersDuplicate(s: Store, onu: nat)
    requires Sound(s) && s.users == map[] && !Alarmed(s, onu, Los)
    ensures
      var once := Steer(s, map[], onu, Los, true, Critical, None, None);
      !OneActive(Steer(once, map[], onu, Los, true, Critical, None, None))
  {
    var once := Steer(s, map[], onu, Los, true, Critical, None, None);
    var twice := Steer(once, map[], onu, Los, true, Critical, None, None);
    assert IsActive(twice, AlarmId(s.nextAlarm), onu, Los);
    assert IsActive(twice, AlarmId(s.nextAlarm + 1), onu, Los);
  }
}
