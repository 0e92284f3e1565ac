/** The alarm service and the poller as they run: methods over the tables they update in place. */
module AlarmDesk {
  import opened Options
  import opened AlarmStore
  import opened AlarmLaws
  import opened AlarmPoll
  import opened Text

  class Desk {
    var alarms: map<AlarmId, Alarm>
    var tickets: map<TicketId, Ticket>
    var users: map<UserId, User>
    var technicians: set<nat>
    var nextAlarm: nat
    var nextTicket: nat
    var clock: int

    function Now(): Store
      reads this
    {
      Store(alarms, tickets, users, technicians, nextAlarm, nextTicket, clock)
    }

    constructor (users: map<UserId, User>, technicians: set<nat>)
      ensures Now() == Store(map[], map[], users, technicians, 0, 0, 0)
      ensures Sound(Now()) && ResolvedMeansSettled(Now())
    {
      this.users, this.technicians := users, technicians;
      alarms, tickets, nextAlarm, nextTicket, clock := map[], map[], 0, 0, 0;
    }

    // ------------------------------------------------------- alarm service

    method GetActiveAlarm(onu: nat, kind: AlarmType) returns (r: Option<AlarmId>)
      requires OneActive(Now())
      ensures r.Some? ==> IsActive(Now(), r.value, onu, kind)
      ensures r.None? ==> !Alarmed(Now(), onu, kind)
    {
      var left := alarms.Keys;
      while left != {}
        invariant left <= alarms.Keys
        invariant forall a :: a in alarms && a !in left ==> !IsActive(Now(), a, onu, kind)
        decreases left
      {
        var a :| a in left;
        if IsActive(Now(), a, onu, kind) {
          return Some(a);
        }
        left := left - {a};
      }
      r := None;
    }

    method PickNextTechnician() returns (pick: Option<UserId>)
      ensures IsNextTechnician(users, pick)
    {
      pick := None;
      var left := users.Keys;
      while left != {}
        invariant left <= users.Keys
        invariant pick.Some? ==> pick.value in users && Eligible(users[pick.value])
        invariant forall u :: u in users && u !in left && Eligible(users[u]) ==>
          pick.Some? && NoLater(users[pick.value].lastTicketAt, users[u].lastTicketAt)
        decreases left
      {
        var u :| u in left;
        if Eligible(users[u]) && (pick.None? || NoLater(users[u].lastTicketAt, users[pick.value].lastTicketAt)) {
          pick := Some(u);
        }
        left := left - {u};
      }
    }

    method CreateAlarmAndTicket(onu: nat, kind: AlarmType, severity: Severity, rx: Option<int>)
      returns (alarm: AlarmId, ticket: TicketId, pick: Option<UserId>)
      modifies this
      ensures IsNextTechnician(old(users), pick)
      ensures Now() == Create(old(Now()), onu, kind, severity, rx, pick)
      ensures alarm == AlarmId(old(nextAlarm)) && ticket == TicketId(old(nextTicket))
      ensures alarms == old(alarms)[alarm := Alarm(Some(onu), kind, severity, Active, rx, clock, None, None)]
      ensures
        var priority := if kind == Los || severity == Critical then High else Medium;
        tickets == old(tickets)[ticket :=
          if pick.Some?
          then Ticket(alarm, Some(onu), Assigned, priority, old(users)[pick.value].technician, Some(clock), None, None, None, None)
          else Ticket(alarm, Some(onu), Open, priority, None, None, None, None, None, None)]
      ensures pick.None? <==> forall u :: u in old(users) ==>
        !(old(users)[u].isTechnician && old(users)[u].active && old(users)[u].technician.Some?)
      ensures pick.Some? ==> users == old(users)[pick.value := old(users)[pick.value].(lastTicketAt := Some(clock))]
      ensures pick.None? ==> users == old(users)
      ensures clock == old(clock) + 1 && technicians == old(technicians)
    {
      clock := clock + 1;
      var now := clock;
      alarm := AlarmId(nextAlarm);
      nextAlarm := nextAlarm + 1;
      alarms := alarms[alarm := Alarm(Some(onu), kind, severity, Active, rx, now, None, None)];

      var priority := Medium;
      if kind.Los? {
        priority := High;
      } else if severity.Critical? {
        priority := High;
      }

      pick := PickNextTechnician();
      var assignedTo, assignedAt, status := None, None, Open;
      if pick.Some? && users[pick.value].technician.Some? {
        assignedTo := users[pick.value].technician;
        status := Assigned;
        assignedAt := Some(now);
      }
      ticket := TicketId(nextTicket);
      nextTicket := nextTicket + 1;
      tickets := tickets[ticket :=
        Ticket(alarm, Some(onu), status, priority, assignedTo, assignedAt, None, None, None, None)];

      if pick.Some? {
        users := users[pick.value := users[pick.value].(lastTicketAt := Some(now))];
      }
    }

    method ResolveAlarmRow(a: AlarmId)
      requires a in alarms
      modifies this
      ensures Now() == ResolveAlarm(old(Now()), a)
      ensures alarms == old(alarms)[a := old(alarms)[a].(status := Resolved, resolvedAt := Some(clock))]
      ensures tickets.Keys == old(tickets).Keys && clock == old(clock) + 1
      ensures forall t :: t in tickets ==>
        var x := old(tickets)[t];
        tickets[t] == if x.alarm == a && x.status !in {TicketResolved, Closed}
                      then x.(status := TicketResolved, resolvedAt := Some(clock),
                              resolutionNotes := Some("Auto-resolved: ONU restored to normal state"))
                      else x
    {
      clock := clock + 1;
      var now := clock;
      alarms := alarms[a := alarms[a].(status := Resolved, resolvedAt := Some(now))];
      tickets := map t | t in tickets ::
        if tickets[t].alarm == a && !Terminal(tickets[t].status)
        then tickets[t].(status := TicketResolved, resolvedAt := Some(now), resolutionNotes := Some(AUTO_RESOLVED))
        else tickets[t];
    }

    method Assign(t: TicketId, technician: nat) returns (reply: Reply)
      modifies this
      ensures reply == AssignReply(old(Now()), t, technician)
      ensures Now() == AssignTicket(old(Now()), t, technician)
      ensures reply == if t in old(tickets) && technician in technicians then Done else NotFound
      ensures reply == Done ==> OnlyTicket(old(Now()), Now(), t, old(tickets)[t].(
        assignedTo := Some(technician), status := Assigned, assignedAt := Some(clock)))
      ensures reply == Done ==> alarms == old(alarms)
      ensures reply != Done ==> Now() == old(Now())
    {
      if t !in tickets {
        return NotFound;
      }
      if technician !in technicians {
        return NotFound;
      }
      clock := clock + 1;
      var ticket := tickets[t];
      ticket := ticket.(assignedTo := Some(technician));
      ticket := ticket.(status := Assigned, assignedAt := Some(clock));
      tickets := tickets[t := ticket];
      reply := Done;
    }

    method Resolve(t: TicketId, notes: string) returns (reply: Reply)
      modifies this
      ensures reply == ResolveTicketReply(old(Now()), t)
      ensures Now() == ResolveTicket(old(Now()), t, notes)
      ensures reply == if t in old(tickets) then Done else NotFound
      ensures reply == Done ==> OnlyTicket(old(Now()), Now(), t, old(tickets)[t].(
        status := TicketResolved, resolvedAt := Some(clock), resolutionNotes := Some(notes)))
      ensures reply == Done ==> OnlyAlarmResolved(old(Now()), Now(), old(tickets)[t].alarm, notes)
      ensures reply != Done ==> Now() == old(Now())
    {
      if t !in tickets {
        return NotFound;
      }
      clock := clock + 1;
      var a := tickets[t].alarm;
      tickets := tickets[t := tickets[t].(
        status := TicketResolved, resolvedAt := Some(clock), resolutionNotes := Some(notes))];
      if a in alarms && alarms[a].status.Active? {
        alarms := alarms[a := alarms[a].(status := Resolved, resolvedAt := Some(clock), notes := Some(notes))];
      }
      reply := Done;
    }

    method Acknowledge(actor: Actor, t: TicketId, notes: Option<string>) returns (reply: Reply)
      modifies this
      ensures reply == AcknowledgeReply(old(Now()), actor, t)
      ensures Now() == AcknowledgeTicket(old(Now()), actor, t, notes)
      ensures reply == NotFound <==> t !in old(tickets)
      ensures reply == Forbidden <==> t in old(tickets) && actor.Technician? && old(tickets)[t].assignedTo != actor.id
      ensures reply == Done <==>
        && t in old(tickets) && (actor == Admin || old(tickets)[t].assignedTo == actor.id)
        && old(tickets)[t].status !in {Acknowledged, TicketResolved, Closed}
      ensures reply == Done ==> OnlyTicket(old(Now()), Now(), t, old(tickets)[t].(
        status := Acknowledged, acknowledgedAt := Some(clock), acknowledgeNotes := notes))
      ensures reply == Done ==> alarms == old(alarms)
      ensures reply != Done ==> reply in {NotFound, Forbidden, Conflict} && Now() == old(Now())
    {
      if t !in tickets {
        return NotFound;
      }
      if actor.Technician? && tickets[t].assignedTo != actor.id {
        return Forbidden;
      }
      if tickets[t].status !in {Open, Assigned, InProgress} {
        return Conflict;
      }
      clock := clock + 1;
      tickets := tickets[t := tickets[t].(
        status := Acknowledged, acknowledgedAt := Some(clock), acknowledgeNotes := notes)];
      reply := Done;
    }

    method Close(actor: Actor, t: TicketId, probe: Probe, notes: string) returns (reply: Reply)
      modifies this
      ensures reply == CloseReply(old(Now()), actor, t, probe)
      ensures Now() == CloseTicket(old(Now()), actor, t, probe, notes)
      ensures reply == NotFound <==> t !in old(tickets)
      ensures reply == Forbidden <==> t in old(tickets) && actor.Technician? && old(tickets)[t].assignedTo != actor.id
      ensures reply == BadGateway <==>
        && t in old(tickets) && (actor == Admin || old(tickets)[t].assignedTo == actor.id)
        && old(tickets)[t].status !in {TicketResolved, Closed}
        && old(tickets)[t].onu.Some? && old(tickets)[t].alarm in old(alarms) && probe.Raises?
      ensures reply == Done <==>
        && t in old(tickets) && (actor == Admin || old(tickets)[t].assignedTo == actor.id)
        && old(tickets)[t].status !in {TicketResolved, Closed}
        && (old(tickets)[t].onu.Some? && old(tickets)[t].alarm in old(alarms) ==>
              Recovered(old(alarms)[old(tickets)[t].alarm].kind, probe))
      ensures reply == Done ==> OnlyTicket(old(Now()), Now(), t, old(tickets)[t].(
        status := Closed, resolvedAt := Some(clock), resolutionNotes := Some(notes)))
      ensures reply == Done ==>
        OnlyAlarmResolved(old(Now()), Now(), old(tickets)[t].alarm, "Closed by technician: " + notes)
      ensures reply != Done ==> Now() == old(Now())
    {
      if t !in tickets {
        return NotFound;
      }
      if actor.Technician? && tickets[t].assignedTo != actor.id {
        return Forbidden;
      }
      if tickets[t].status in {TicketResolved, Closed} {
        return Conflict;
      }
      var a := tickets[t].alarm;
      if tickets[t].onu.Some? && a in alarms {
        if probe.Raises? {
          return BadGateway;
        }
        if alarms[a].kind.Los? {
          if !Contains(probe.oper, "working") && !Contains(probe.oper, "online") {
            return Conflict;
          }
        } else {
          if probe.rx.None? {
            return Conflict;
          }
          if probe.rx.value <= RX_MINOR {
            return Conflict;
          }
        }
      }
      clock := clock + 1;
      tickets := tickets[t := tickets[t].(
        status := Closed, resolvedAt := Some(clock), resolutionNotes := Some(notes))];
      if a in alarms && alarms[a].status.Active? {
        alarms := alarms[a := alarms[a].(
          status := Resolved, resolvedAt := Some(clock), notes := Some("Closed by technician: " + notes))];
      }
      reply := Done;
    }

    // -------------------------------------------------------------- poller

    /** All active alarms of the given ONUs in one query. */
    method PreloadActive(ids: set<nat>) returns (known: Snapshot)
      requires OneActive(Now())
      ensures IsSnapshot(known, Now(), ids)
    {
      known := map[];
      var left := alarms.Keys;
      while left != {}
        invariant left <= alarms.Keys
        invariant forall a, onu, kind :: IsActive(Now(), a, onu, kind) && onu in ids && a !in left ==>
          (onu, kind) in known && known[(onu, kind)] == a
        invariant forall key :: key in known ==> key.0 in ids && IsActive(Now(), known[key], key.0, key.1)
        decreases left
      {
        var a :| a in left;
        var alarm := alarms[a];
        if alarm.status.Active? && alarm.onu.Some? && alarm.onu.value in ids {
          assert IsActive(Now(), a, alarm.onu.value, alarm.kind);
          known := known[(alarm.onu.value, alarm.kind) := a];
        }
        left := left - {a};
      }
    }

    /** Raise or clear one alarm, whichever the reading and the snapshot call for. */
    method SteerAlarm(known: Snapshot, onu: nat, kind: AlarmType, wanted: bool, severity: Severity, rx: Option<int>)
      requires Sound(Now()) && Fits(Now(), known, onu, kind)
      modifies this
      ensures Sound(Now())
      ensures Alarmed(Now(), onu, kind) <==> wanted
      ensures forall o: nat, k :: (o, k) != (onu, kind) ==> SameAlarm(old(Now()), Now(), o, k)
      ensures forall a :: SteeredRow(old(Now()), Now(), a, onu, kind, wanted, severity, rx)
    {
      ghost var s := Now();
      ghost var pick: Option<UserId> := None;
      if wanted {
        if (onu, kind) !in known {
          var _, _, picked := CreateAlarmAndTicket(onu, kind, severity, rx);
          pick := picked;
        }
      } else {
        if (onu, kind) in known {
          ResolveAlarmRow(known[(onu, kind)]);
        }
      }
      assert Now() == Steer(s, known, onu, kind, wanted, severity, rx, pick);
      SteerIsSound(s, known, onu, kind, wanted, severity, rx, pick);
      SteerReachesLevel(s, known, onu, kind, wanted, severity, rx, pick);
      forall o: nat, k | (o, k) != (onu, kind) ensures SameAlarm(s, Now(), o, k) {
        SteerIsLocal(s, known, onu, kind, wanted, severity, rx, pick, o, k);
      }
      forall a ensures SteeredRow(s, Now(), a, onu, kind, wanted, severity, rx) {
        SteerRecords(s, known, onu, kind, wanted, severity, rx, pick, a);
      }
    }

    /** What the bulk queries, or failing them the detail query, say of one ONU. */
    method Observe(w: World, report: PortReport, onu: Onu) returns (seen: Reading)
      requires report == w.report(onu.port)
      ensures seen == ReadingOf(w, onu)
      ensures seen.Skipped? <==> report.states == map[] && w.detail(onu.id).Raised?
      ensures seen.Seen? ==> seen.rx == PowerOf(w, onu)
      ensures seen.Seen? && report.states == map[] ==> seen.oper == Lower(w.detail(onu.id).oper)
      ensures seen.Seen? && report.states != map[] ==>
        seen.oper == if onu.onuId in report.states then report.states[onu.onuId] else ""
    {
      var oper := if onu.onuId in report.states then report.states[onu.onuId] else "";
      var rx := Lookup(report.rx, onu.onuId);
      if oper == "" && report.states == map[] {
        match w.detail(onu.id)
        case Raised =>
          return Skipped;
        case Parsed(detailOper, detailRx) =>
          oper := Lower(detailOper);
          if detailRx.Some? {
            rx := detailRx;
          }
      }
      seen := Seen(oper, rx);
    }

    method VisitOnu(w: World, report: PortReport, onu: Onu, known: Snapshot, ghost all: seq<Onu>)
      requires report == w.report(onu.port)
      requires Sound(Now()) && Fits(Now(), known, onu.id, Los) && Fits(Now(), known, onu.id, LowRx)
      requires onu in all
      modifies this
      ensures Sound(Now())
      ensures Treated(old(Now()), Now(), onu.id, ReadingOf(w, onu))
      ensures forall o: nat :: o != onu.id ==> SameAlarms(old(Now()), Now(), o)
      ensures RaisesOnly(old(Now()), Now(), w, all)
    {
      ghost var s0 := Now();
      var seen := Observe(w, report, onu);
      if seen.Skipped? {
        return;
      }
      var rx := seen.rx;
      SteerAlarm(known, onu.id, Los, IsOffline(seen.oper), Critical, None);
      ghost var s1 := Now();
      assert SameAlarm(s0, s1, onu.id, LowRx);
      SteeredIsRaised(s0, s1, onu, Los, IsOffline(seen.oper), Critical, None, w, all);

      if rx.Some? {
        FitsStays(s0, s1, known, onu.id, LowRx);
        var severity := RxSeverity(rx.value);
        SteerAlarm(known, onu.id, LowRx, severity.Some?, if severity.Some? then severity.value else Minor, rx);
        AlarmStays(s1, Now(), onu.id, Los);
        SteeredIsRaised(
          s1, Now(), onu, LowRx, severity.Some?, if severity.Some? then severity.value else Minor, rx, w, all);
        RaisesOnlyTrans(s0, s1, Now(), w, all);
      }
      OthersKept(s0, s1, Now(), onu.id);
    }

    /** ONUs by port, in the order in which the ports first appear. */
    method GroupByPort(onus: seq<Onu>) returns (ports: seq<Port>, byPort: map<Port, seq<Onu>>)
      ensures forall i, j :: 0 <= i < j < |ports| ==> ports[i] != ports[j]
      ensures forall p :: p in byPort <==> p in ports
      ensures forall p :: p in byPort ==> byPort[p] == OnPort(onus, p)
      ensures forall o :: o in onus ==> o.port in ports
    {
      ports, byPort := [], map[];
      for i := 0 to |onus|
        invariant Keyed(ports, byPort) && Grouped(byPort, onus[..i])
      {
        var onu := onus[i];
        var group := if onu.port in byPort then byPort[onu.port] else [];
        GroupedNext(byPort, onus, i);
        KeyedNext(ports, byPort, onu.port, group + [onu]);
        if onu.port !in byPort {
          ports := ports + [onu.port];
        }
        byPort := byPort[onu.port := group + [onu]];
      }
      assert onus[..|onus|] == onus;
      GroupsCover(ports, byPort, onus);
    }

    method PollPort(w: World, onus: seq<Onu>, port: Port, known: Snapshot,
                    ghost before: Store, ghost all: seq<Onu>, ghost done: seq<nat>) returns (ghost visited: seq<nat>)
      requires forall k :: 0 <= k < |onus| ==> onus[k] in all
      requires forall k :: 0 <= k < |onus| ==> onus[k].port == port && onus[k].id !in done
      requires DistinctIds(onus) && NoRepeats(done)
      requires Sound(Now()) && IsSnapshot(known, before, IdSet(all)) && RaisesOnly(before, Now(), w, all)
      requires forall o :: o !in done ==> SameAlarms(before, Now(), o)
      modifies this
      ensures Sound(Now()) && NoRepeats(visited) && RaisesOnly(before, Now(), w, all)
      ensures forall id :: id in visited <==> id in done || exists k :: 0 <= k < |onus| && onus[k].id == id
      ensures forall k :: 0 <= k < |onus| ==> Treated(before, Now(), onus[k].id, ReadingOf(w, onus[k]))
      ensures forall o :: o !in visited ==> SameAlarms(before, Now(), o)
      ensures forall o :: o in done ==> SameAlarms(old(Now()), Now(), o)
    {
      visited := done;
      ghost var start := Now();
      var report := w.report(port);
      for i := 0 to |onus|
        invariant Sound(Now()) && NoRepeats(visited) && RaisesOnly(before, Now(), w, all)
        invariant forall id :: id in visited <==> id in done || exists k :: 0 <= k < i && onus[k].id == id
        invariant forall k :: 0 <= k < i ==> Treated(before, Now(), onus[k].id, ReadingOf(w, onus[k]))
        invariant forall o :: o !in visited ==> SameAlarms(before, Now(), o)
        invariant forall o :: o in done ==> SameAlarms(start, Now(), o)
      {
        var onu := onus[i];
        ghost var s := Now();
        SnapshotFits(known, before, s, IdSet(all), onu.id, Los);
        SnapshotFits(known, before, s, IdSet(all), onu.id, LowRx);
        VisitOnu(w, report, onu, known, all);
        RaisesOnlyTrans(before, s, Now(), w, all);
        TreatedFrom(before, s, Now(), onu.id, ReadingOf(w, onu));
        forall k | 0 <= k < i ensures Treated(before, Now(), onus[k].id, ReadingOf(w, onus[k])) {
          TreatedStays(before, s, Now(), onus[k].id, ReadingOf(w, onus[k]));
        }
        forall o | o !in visited + [onu.id] ensures SameAlarms(before, Now(), o) {
          SameAlarmsTrans(before, s, Now(), o);
        }
        forall o | o in done ensures SameAlarms(start, Now(), o) {
          SameAlarmsTrans(start, s, Now(), o);
        }
        visited := visited + [onu.id];
      }
    }

    /** An uninterrupted poll treats every ONU exactly once and reaches the level-triggered goal for each. */
    method PollOlt(w: World, onus: seq<Onu>) returns (ghost visited: seq<nat>)
      requires Sound(Now()) && DistinctIds(onus)
      modifies this
      ensures Sound(Now())
      ensures forall o :: o in onus ==> Treated(old(Now()), Now(), o.id, ReadingOf(w, o))
      ensures forall id :: id !in IdSet(onus) ==> SameAlarms(old(Now()), Now(), id)
      ensures NoRepeats(visited) && forall id :: id in visited <==> id in IdSet(onus)
      ensures forall o :: o in onus && w.report(o.port).states == map[] && w.detail(o.id).Raised? ==>
        SameAlarms(old(Now()), Now(), o.id)
      ensures forall o :: o in onus && w.report(o.port).states == map[] && w.detail(o.id).Parsed? ==>
        JudgedBy(old(Now()), Now(), o.id, Lower(w.detail(o.id).oper),
                 if w.detail(o.id).rx.Some? then w.detail(o.id).rx else BulkPower(w, o))
      ensures forall o :: o in onus && w.report(o.port).states != map[] ==>
        JudgedBy(old(Now()), Now(), o.id,
                 if o.onuId in w.report(o.port).states then w.report(o.port).states[o.onuId] else "", BulkPower(w, o))
      ensures RaisesOnly(old(Now()), Now(), w, onus)
    {
      visited := [];
      if onus == [] {
        return;
      }
      ghost var before := Now();
      var ids := IdSet(onus);
      var known := PreloadActive(ids);
      var ports, byPort := GroupByPort(onus);
      for i := 0 to |ports|
        invariant Sound(Now()) && NoRepeats(visited) && RaisesOnly(before, Now(), w, onus)
        invariant forall id :: id in visited ==> id in ids
        invariant forall o :: o in onus ==> (o.id in visited <==> o.port in ports[..i])
        invariant forall o :: o in onus && o.port in ports[..i] ==> Treated(before, Now(), o.id, ReadingOf(w, o))
        invariant forall id :: id !in visited ==> SameAlarms(before, Now(), id)
      {
        var group := byPort[ports[i]];
        ghost var s, done := Now(), visited;
        GroupIsFresh(onus, ports, i, visited);
        visited := PollPort(w, group, ports[i], known, before, onus, visited);
        GroupVisited(onus, ports, i, done, visited);
        forall o | o in onus && o.port in ports[..i + 1] ensures Treated(before, Now(), o.id, ReadingOf(w, o)) {
          if o.port in ports[..i] {
            TreatedStays(before, s, Now(), o.id, ReadingOf(w, o));
          } else {
            OnPortHas(onus, ports[i], o);
          }
        }
      }
      assert ports[..|ports|] == ports;
      forall o | o in onus ensures TreatedByCase(before, Now(), w, o) {
        TreatedCases(before, Now(), w, o);
      }
    }
  }

  /** Only this ticket's row changes, and the clock. */
  predicate OnlyTicket(s: Store, s': Store, t: TicketId, row: Ticket) {
    && s'.tickets == s.tickets[t := row] && s'.clock == s.clock + 1
    && s'.users == s.users && s'.technicians == s.technicians
    && s'.nextAlarm == s.nextAlarm && s'.nextTicket == s.nextTicket
  }

  /** The alarm is resolved if it was active, and no other alarm changes. */
  predicate OnlyAlarmResolved(s: Store, s': Store, a: AlarmId, notes: string) {
    if a in s.alarms && s.alarms[a].status == Active
    then s'.alarms == s.alarms[a := s.alarms[a].(status := Resolved, resolvedAt := Some(s'.clock), notes := Some(notes))]
    else s'.alarms == s.alarms
  }

  /** The device shows that the fault is gone. */
  predicate Recovered(kind: AlarmType, probe: Probe) {
    && probe.Says?
    && (kind == Los ==> Contains(probe.oper, "working") || Contains(probe.oper, "online"))
    && (kind == LowRx ==> probe.rx.Some? && probe.rx.value > -2600)
  }

  /** An ONU's alarms after a poll that saw this state and this power. */
  ghost predicate JudgedBy(before: Store, s: Store, onu: nat, oper: string, power: Option<int>) {
    && (Alarmed(s, onu, Los) <==> oper !in {"", "working", "online"})
    && (power.Some? ==> (Alarmed(s, onu, LowRx) <==> power.value <= -2600))
    && (power.None? ==> SameAlarm(before, s, onu, LowRx))
  }

  ghost predicate TreatedByCase(before: Store, s: Store, w: World, o: Onu) {
    var r := w.report(o.port);
    if r.states != map[] then
      JudgedBy(before, s, o.id, if o.onuId in r.states then r.states[o.onuId] else "", BulkPower(w, o))
    else
      match w.detail(o.id)
      case Raised => SameAlarms(before, s, o.id)
      case Parsed(oper, rx) => JudgedBy(before, s, o.id, Lower(oper), if rx.Some? then rx else BulkPower(w, o))
  }

  lemma TreatedCases(before: Store, s: Store, w: World, o: Onu)
    requires Treated(before, s, o.id, ReadingOf(w, o))
    ensures TreatedByCase(before, s, w, o)
  {
  }

  lemma SteeredIsRaised(
    s: Store, s': Store, o: Onu, kind: AlarmType, wanted: bool, severity: Severity, rx: Option<int>, w: World,
    onus: seq<Onu>)
    requires forall a :: SteeredRow(s, s', a, o.id, kind, wanted, severity, rx)
    requires o in onus && (wanted && kind == Los ==> severity == Critical && rx == None)
    requires wanted && kind == LowRx ==> rx.Some? && rx == PowerOf(w, o) && RxSeverity(rx.value) == Some(severity)
    ensures RaisesOnly(s, s', w, onus)
  {
    forall a | a in s'.alarms && s'.alarms[a].status.Active? && !StillActive(s, s', a)
      ensures RaisedFor(s'.alarms[a], w, o)
    {
      assert SteeredRow(s, s', a, o.id, kind, wanted, severity, rx);
    }
  }

  ghost predicate Keyed(ports: seq<Port>, byPort: map<Port, seq<Onu>>) {
    && (forall i, j :: 0 <= i < j < |ports| ==> ports[i] != ports[j])
    && (forall p :: p in byPort <==> p in ports)
  }

  ghost predicate Grouped(byPort: map<Port, seq<Onu>>, onus: seq<Onu>) {
    forall p :: OnPort(onus, p) == if p in byPort then byPort[p] else []
  }

  lemma KeyedNext(ports: seq<Port>, byPort: map<Port, seq<Onu>>, p: Port, group: seq<Onu>)
    requires Keyed(ports, byPort)
    ensures Keyed(if p in byPort then ports else ports + [p], byPort[p := group])
  {
  }

  lemma GroupsCover(ports: seq<Port>, byPort: map<Port, seq<Onu>>, onus: seq<Onu>)
    requires Keyed(ports, byPort) && Grouped(byPort, onus)
    ensures forall p :: p in byPort ==> byPort[p] == OnPort(onus, p)
    ensures forall o :: o in onus ==> o.port in ports
  {
    forall o | o in onus ensures o.port in ports {
      OnPortHas(onus, o.port, o);
      assert OnPort(onus, o.port) != [];
    }
  }

  lemma GroupedNext(byPort: map<Port, seq<Onu>>, onus: seq<Onu>, i: nat)
    requires i < |onus| && Grouped(byPort, onus[..i])
    ensures
      var group := if onus[i].port in byPort then byPort[onus[i].port] else [];
      Grouped(byPort[onus[i].port := group + [onus[i]]], onus[..i + 1])
  {
    forall p ensures OnPort(onus[..i + 1], p) == OnPort(onus[..i], p) + if onus[i].port == p then [onus[i]] else [] {
      OnPortNext(onus, i, p);
    }
  }

  lemma GroupIsFresh(onus: seq<Onu>, ports: seq<Port>, i: nat, visited: seq<nat>)
    requires DistinctIds(onus) && i < |ports|
    requires forall j, k :: 0 <= j < k < |ports| ==> ports[j] != ports[k]
    requires forall o :: o in onus ==> (o.id in visited <==> o.port in ports[..i])
    ensures
      var group := OnPort(onus, ports[i]);
      DistinctIds(group) && forall k :: 0 <= k < |group| ==>
        group[k].port == ports[i] && group[k] in onus && group[k].id !in visited
  {
    var group := OnPort(onus, ports[i]);
    OnPortDistinct(onus, ports[i]);
    forall k | 0 <= k < |group|
      ensures group[k].port == ports[i] && group[k] in onus && group[k].id !in visited
    {
      OnPortHas(onus, ports[i], group[k]);
    }
  }

  lemma GroupVisited(onus: seq<Onu>, ports: seq<Port>, i: nat, done: seq<nat>, visited: seq<nat>)
    requires DistinctIds(onus) && i < |ports|
    requires forall id :: id in done ==> id in IdSet(onus)
    requires forall o :: o in onus ==> (o.id in done <==> o.port in ports[..i])
    requires
      var group := OnPort(onus, ports[i]);
      forall id :: id in visited <==> id in done || exists k :: 0 <= k < |group| && group[k].id == id
    ensures forall id :: id in visited ==> id in IdSet(onus)
    ensures forall o :: o in onus ==> (o.id in visited <==> o.port in ports[..i + 1])
  {
    var group := OnPort(onus, ports[i]);
    forall k | 0 <= k < |group| ensures group[k] in onus && group[k].port == ports[i] {
      OnPortHas(onus, ports[i], group[k]);
    }
    assert ports[..i + 1] == ports[..i] + [ports[i]];
    forall o | o in onus ensures o.id in visited <==> o.port in ports[..i + 1] {
      OnPortHas(onus, ports[i], o);
      if o.id in visited && o.id !in done {
        var k :| 0 <= k < |group| && group[k].id == o.id;
        assert group[k] == o;
      }
    }
  }
}
