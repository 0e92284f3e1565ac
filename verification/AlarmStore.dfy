/**
 Alarm, ticket and user tables, and the effect of each service operation on them.

 Row ids are handed out in increasing order. `clock` is a logical clock: every
 reading of the current time is one later than the last.
 */
module AlarmStore {
  import opened Options
  import opened Text

  datatype AlarmId = AlarmId(n: nat)
  datatype TicketId = TicketId(n: nat)
  datatype UserId = UserId(n: nat)

  datatype AlarmType = Los | LowRx
  datatype Severity = Critical | Major | Minor
  datatype AlarmStatus = Active | Resolved
  datatype TicketStatus = Open | Assigned | InProgress | Acknowledged | TicketResolved | Closed
  datatype Priority = High | Medium | Low

  /** `onu` becomes None when the ONU row is deleted. Rx power is in hundredths of a dBm. */
  datatype Alarm = Alarm(
    onu: Option<nat>, kind: AlarmType, severity: Severity, status: AlarmStatus,
    rx: Option<int>, detectedAt: int, resolvedAt: Option<int>, notes: Option<string>)

  datatype Ticket = Ticket(
    alarm: AlarmId, onu: Option<nat>, status: TicketStatus, priority: Priority,
    assignedTo: Option<nat>, assignedAt: Option<int>,
    acknowledgedAt: Option<int>, acknowledgeNotes: Option<string>,
    resolvedAt: Option<int>, resolutionNotes: Option<string>)

  datatype User = User(isTechnician: bool, active: bool, technician: Option<nat>, lastTicketAt: Option<int>)

  datatype Store = Store(
    alarms: map<AlarmId, Alarm>, tickets: map<TicketId, Ticket>,
    users: map<UserId, User>, technicians: set<nat>,
    nextAlarm: nat, nextTicket: nat, clock: int)

  datatype Reply = Done | NotFound | Forbidden | Conflict | BadGateway

  const RX_MINOR := -2600
  const RX_MAJOR := -2700
  const RX_CRITICAL := -2800

  predicate Terminal(t: TicketStatus) { t.TicketResolved? || t.Closed? }

  // -------------------------------------------------------------- severity

  function RxSeverity(rx: int): Option<Severity> {
    if rx <= RX_CRITICAL then Some(Critical)
    else if rx <= RX_MAJOR then Some(Major)
    else if rx <= RX_MINOR then Some(Minor)
    else None
  }

  // ------------------------------------------------------------ technicians

  predicate Eligible(u: User) { u.isTechnician && u.active && u.technician.Some? }

  /** No timestamp comes first. */
  predicate NoLater(a: Option<int>, b: Option<int>) {
    a.None? || (b.Some? && a.value <= b.value)
  }

  /** A result the round-robin query may give; which of several equals comes first is the database's choice. */
  predicate IsNextTechnician(users: map<UserId, User>, pick: Option<UserId>) {
    match pick
    case None => forall u :: u in users ==> !Eligible(users[u])
    case Some(p) =>
      && p in users && Eligible(users[p])
      && forall u :: u in users && Eligible(users[u]) ==> NoLater(users[p].lastTicketAt, users[u].lastTicketAt)
  }

  // ------------------------------------------------------------- operations

  function PriorityOf(kind: AlarmType, severity: Severity): Priority {
    if kind.Los? || severity.Critical? then High else Medium
  }

  function NewAlarm(onu: nat, kind: AlarmType, severity: Severity, rx: Option<int>, now: int): Alarm {
    Alarm(Some(onu), kind, severity, Active, rx, now, None, None)
  }

  function NewTicket(
    alarm: AlarmId, onu: nat, kind: AlarmType, severity: Severity, technician: Option<nat>, now: int): Ticket
  {
    Ticket(alarm, Some(onu), if technician.Some? then Assigned else Open, PriorityOf(kind, severity),
           technician, if technician.Some? then Some(now) else None, None, None, None, None)
  }

  /** A new alarm with its ticket, given to the technician whose turn it is. */
  function Create(
    s: Store, onu: nat, kind: AlarmType, severity: Severity, rx: Option<int>, pick: Option<UserId>): Store
    requires pick.Some? ==> pick.value in s.users
  {
    var now := s.clock + 1;
    var technician := if pick.Some? then s.users[pick.value].technician else None;
    s.(clock := now,
       alarms := s.alarms[AlarmId(s.nextAlarm) := NewAlarm(onu, kind, severity, rx, now)],
       tickets := s.tickets[TicketId(s.nextTicket) := NewTicket(AlarmId(s.nextAlarm), onu, kind, severity, technician, now)],
       users := if pick.Some? then s.users[pick.value := s.users[pick.value].(lastTicketAt := Some(now))] else s.users,
       nextAlarm := s.nextAlarm + 1, nextTicket := s.nextTicket + 1)
  }

  const AUTO_RESOLVED := "Auto-resolved: ONU restored to normal state"

  /** The poller clears an alarm, and its ticket unless that is already settled. */
  function ResolveAlarm(s: Store, a: AlarmId): Store
    requires a in s.alarms
  {
    var now := s.clock + 1;
    s.(clock := now,
       alarms := s.alarms[a := s.alarms[a].(status := Resolved, resolvedAt := Some(now))],
       tickets := map t | t in s.tickets ::
         if s.tickets[t].alarm == a && !Terminal(s.tickets[t].status)
         then s.tickets[t].(status := TicketResolved, resolvedAt := Some(now), resolutionNotes := Some(AUTO_RESOLVED))
         else s.tickets[t])
  }

  /** Settle the alarm behind a ticket if it is still active. */
  function SettleAlarm(s: Store, a: AlarmId, notes: string, now: int): map<AlarmId, Alarm> {
    if a in s.alarms && s.alarms[a].status.Active?
    then s.alarms[a := s.alarms[a].(status := Resolved, resolvedAt := Some(now), notes := Some(notes))]
    else s.alarms
  }

  function AssignReply(s: Store, t: TicketId, technician: nat): Reply {
    if t !in s.tickets || technician !in s.technicians then NotFound else Done
  }

  /** Assignment looks at neither the ticket's status nor its alarm. */
  function AssignTicket(s: Store, t: TicketId, technician: nat): Store {
    if AssignReply(s, t, technician) != Done then s
    else
      var now := s.clock + 1;
      s.(clock := now,
         tickets := s.tickets[t := s.tickets[t].(
           assignedTo := Some(technician), status := Assigned, assignedAt := Some(now))])
  }

  function ResolveTicketReply(s: Store, t: TicketId): Reply {
    if t !in s.tickets then NotFound else Done
  }

  function ResolveTicket(s: Store, t: TicketId, notes: string): Store {
    if t !in s.tickets then s
    else
      var now := s.clock + 1;
      s.(clock := now,
         tickets := s.tickets[t := s.tickets[t].(
           status := TicketResolved, resolvedAt := Some(now), resolutionNotes := Some(notes))],
         alarms := SettleAlarm(s, s.tickets[t].alarm, notes, now))
  }

  /** Who is asking: an administrator, or a technician's user with the technician record it is linked to. */
  datatype Actor = Admin | Technician(id: Option<nat>)

  predicate MayTouch(actor: Actor, t: Ticket) {
    actor.Technician? ==> t.assignedTo == actor.id
  }

  function AcknowledgeReply(s: Store, actor: Actor, t: TicketId): Reply {
    if t !in s.tickets then NotFound
    else if !MayTouch(actor, s.tickets[t]) then Forbidden
    else if !(s.tickets[t].status.Open? || s.tickets[t].status.Assigned? || s.tickets[t].status.InProgress?) then Conflict
    else Done
  }

  function AcknowledgeTicket(s: Store, actor: Actor, t: TicketId, notes: Option<string>): Store {
    if AcknowledgeReply(s, actor, t) != Done then s
    else
      var now := s.clock + 1;
      s.(clock := now,
         tickets := s.tickets[t := s.tickets[t].(
           status := Acknowledged, acknowledgedAt := Some(now), acknowledgeNotes := notes)])
  }

  /** What the device says during the recovery check: it raises, or gives the state and the Rx power
      (None when neither the bulk nor the optical query has one). */
  datatype Probe = Raises | Says(oper: string, rx: Option<int>)

  function RecoveryReply(kind: AlarmType, probe: Probe): Reply {
    if probe.Raises? then BadGateway
    else
      match kind
      case Los => if Contains(probe.oper, "working") || Contains(probe.oper, "online") then Done else Conflict
      case LowRx => if probe.rx.None? || probe.rx.value <= RX_MINOR then Conflict else Done
  }

  function CloseReply(s: Store, actor: Actor, t: TicketId, probe: Probe): Reply {
    if t !in s.tickets then NotFound
    else if !MayTouch(actor, s.tickets[t]) then Forbidden
    else if Terminal(s.tickets[t].status) then Conflict
    else if s.tickets[t].onu.Some? && s.tickets[t].alarm in s.alarms
      then RecoveryReply(s.alarms[s.tickets[t].alarm].kind, probe)
    else Done
  }

  function CloseTicket(s: Store, actor: Actor, t: TicketId, probe: Probe, notes: string): Store {
    if CloseReply(s, actor, t, probe) != Done then s
    else
      var now := s.clock + 1;
      s.(clock := now,
         tickets := s.tickets[t := s.tickets[t].(
           status := Closed, resolvedAt := Some(now), resolutionNotes := Some(notes))],
         alarms := SettleAlarm(s, s.tickets[t].alarm, "Closed by technician: " + notes, now))
  }

  /** Deleting an ONU row unlinks its alarms and tickets. */
  function DeleteOnu(s: Store, onu: nat): Store {
    s.(alarms := map a | a in s.alarms ::
         if s.alarms[a].onu == Some(onu) then s.alarms[a].(onu := None) else s.alarms[a],
       tickets := map t | t in s.tickets ::
         if s.tickets[t].onu == Some(onu) then s.tickets[t].(onu := None) else s.tickets[t])
  }

  // -------------------------------------------------------------- invariants

  predicate IsActive(s: Store, a: AlarmId, onu: nat, kind: AlarmType) {
    a in s.alarms && s.alarms[a].status.Active? && s.alarms[a].onu == Some(onu) && s.alarms[a].kind == kind
  }

  ghost predicate Alarmed(s: Store, onu: nat, kind: AlarmType) {
    exists a :: IsActive(s, a, onu, kind)
  }

  /** At most one active alarm per ONU and alarm type. */
  ghost predicate OneActive(s: Store) {
    forall a, b, onu, kind :: IsActive(s, a, onu, kind) && IsActive(s, b, onu, kind) ==> a == b
  }

  ghost predicate IdsBelowNext(s: Store) {
    && (forall a :: a in s.alarms ==> a.n < s.nextAlarm)
    && (forall t :: t in s.tickets ==> t.n < s.nextTicket)
  }

  /** Tickets point at alarms, and agree with them on the ONU. */
  ghost predicate Linked(s: Store) {
    forall t :: t in s.tickets ==>
      s.tickets[t].alarm in s.alarms && s.tickets[t].onu == s.alarms[s.tickets[t].alarm].onu
  }

  ghost predicate NoSharedAlarm(s: Store) {
    forall t, u :: t in s.tickets && u in s.tickets && s.tickets[t].alarm == s.tickets[u].alarm ==> t == u
  }

  ghost predicate HasTicket(s: Store, a: AlarmId) {
    exists t :: t in s.tickets && s.tickets[t].alarm == a
  }

  /** Every alarm has exactly one ticket. */
  ghost predicate OneTicketEach(s: Store) {
    Linked(s) && NoSharedAlarm(s) && forall a :: a in s.alarms ==> HasTicket(s, a)
  }

  /** A settled ticket's alarm is resolved; so an active alarm always has a live ticket. */
  ghost predicate SettledMeansResolved(s: Store) {
    forall t :: t in s.tickets && Terminal(s.tickets[t].status) && s.tickets[t].alarm in s.alarms ==>
      s.alarms[s.tickets[t].alarm].status.Resolved?
  }

  /** The converse, which unrestricted assignment can break. */
  ghost predicate ResolvedMeansSettled(s: Store) {
    forall t :: t in s.tickets && s.tickets[t].alarm in s.alarms && s.alarms[s.tickets[t].alarm].status.Resolved? ==>
      Terminal(s.tickets[t].status)
  }

  ghost predicate Stamped(s: Store) {
    forall a :: a in s.alarms ==> (s.alarms[a].status.Resolved? <==> s.alarms[a].resolvedAt.Some?)
  }

  ghost predicate Coupled(s: Store) {
    IdsBelowNext(s) && OneTicketEach(s) && SettledMeansResolved(s) && Stamped(s)
  }
}
