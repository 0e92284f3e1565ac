/** What each operation on the alarm store keeps, and what whole runs of them keep. */
module AlarmLaws {
  import opened Options
  import opened AlarmStore

  ghost predicate Sound(s: Store) {
    Coupled(s) && OneActive(s)
  }

  // ---------------------------------------------------------------- creation

  lemma CreateKeepsTickets(s: Store, s': Store, a: AlarmId, t: TicketId)
    requires OneTicketEach(s) && a !in s.alarms && t !in s.tickets
    requires s'.alarms.Keys == s.alarms.Keys + {a} && s'.tickets.Keys == s.tickets.Keys + {t}
    requires forall x :: x in s.alarms ==> s'.alarms[x] == s.alarms[x]
    requires forall u :: u in s.tickets ==> s'.tickets[u] == s.tickets[u]
    requires s'.tickets[t].alarm == a && s'.tickets[t].onu == s'.alarms[a].onu
    ensures OneTicketEach(s')
  {
    forall x | x in s'.alarms ensures HasTicket(s', x) {
      if x == a {
        assert t in s'.tickets && s'.tickets[t].alarm == a;
      } else {
        assert HasTicket(s, x);
        var u :| u in s.tickets && s.tickets[u].alarm == x;
        assert u in s'.tickets && s'.tickets[u].alarm == x;
      }
    }
  }

  lemma CreateKeepsSettled(s: Store, s': Store, a: AlarmId, t: TicketId)
    requires OneTicketEach(s) && SettledMeansResolved(s) && Stamped(s) && a !in s.alarms && t !in s.tickets
    requires s'.alarms.Keys == s.alarms.Keys + {a} && s'.tickets.Keys == s.tickets.Keys + {t}
    requires forall x :: x in s.alarms ==> s'.alarms[x] == s.alarms[x]
    requires forall u :: u in s.tickets ==> s'.tickets[u] == s.tickets[u]
    requires !Terminal(s'.tickets[t].status) && s'.alarms[a].status.Active? && s'.alarms[a].resolvedAt.None?
    ensures SettledMeansResolved(s') && Stamped(s')
  {
  }

  lemma CreateIsCoupled(s: Store, onu: nat, kind: AlarmType, severity: Severity, rx: Option<int>, pick: Option<UserId>)
    requires Coupled(s) && (pick.Some? ==> pick.value in s.users)
    ensures Coupled(Create(s, onu, kind, severity, rx, pick))
  {
    var s' := Create(s, onu, kind, severity, rx, pick);
    CreateKeepsTickets(s, s', AlarmId(s.nextAlarm), TicketId(s.nextTicket));
    CreateKeepsSettled(s, s', AlarmId(s.nextAlarm), TicketId(s.nextTicket));
  }

  lemma CreateKeepsOneActive(s: Store, onu: nat, kind: AlarmType, severity: Severity, rx: Option<int>, pick: Option<UserId>)
    requires Coupled(s) && OneActive(s) && !Alarmed(s, onu, kind) && (pick.Some? ==> pick.value in s.users)
    ensures OneActive(Create(s, onu, kind, severity, rx, pick))
  {
    var s' := Create(s, onu, kind, severity, rx, pick);
    var newest := AlarmId(s.nextAlarm);
    assert newest !in s.alarms;
    forall a, b, o, k | IsActive(s', a, o, k) && IsActive(s', b, o, k) ensures a == b {
      if a != newest { assert IsActive(s, a, o, k); }
      if b != newest { assert IsActive(s, b, o, k); }
    }
  }

  /** Creation alarms its own key and no other. */
  lemma CreateAlarms(s: Store, onu: nat, kind: AlarmType, severity: Severity, rx: Option<int>, pick: Option<UserId>,
                     a: AlarmId, o: nat, k: AlarmType)
    requires Coupled(s) && (pick.Some? ==> pick.value in s.users)
    ensures IsActive(Create(s, onu, kind, severity, rx, pick), a, o, k)
       <==> IsActive(s, a, o, k) || (a == AlarmId(s.nextAlarm) && o == onu && k == kind)
  {
    assert AlarmId(s.nextAlarm) !in s.alarms;
  }

  // -------------------------------------------------------------- resolution

  /** What any operation may do to an alarm row: never back to active, and stamped when resolved. */
  predicate AlarmStep(x: Alarm, y: Alarm) {
    && y.kind == x.kind
    && (y.onu == x.onu || y.onu == None)
    && (y.status.Active? ==> x.status.Active?)
    && ((x.status.Resolved? <==> x.resolvedAt.Some?) ==> (y.status.Resolved? <==> y.resolvedAt.Some?))
  }

  ghost predicate OnlyResolves(s: Store, s': Store) {
    && s'.alarms.Keys == s.alarms.Keys
    && forall a :: a in s.alarms ==> AlarmStep(s.alarms[a], s'.alarms[a])
  }

  /** `y` may follow ticket `x`, given what became of its alarm. */
  predicate TicketStep(x: Ticket, y: Ticket, alarm: Alarm) {
    y.alarm == x.alarm && y.onu == alarm.onu && (Terminal(y.status) ==> alarm.status.Resolved?)
  }

  ghost predicate Evolves(s: Store, s': Store) {
    && OnlyResolves(s, s')
    && s'.nextAlarm == s.nextAlarm && s'.nextTicket == s.nextTicket
    && s'.tickets.Keys == s.tickets.Keys
    && forall t :: t in s.tickets && s.tickets[t].alarm in s.alarms ==>
         TicketStep(s.tickets[t], s'.tickets[t], s'.alarms[s.tickets[t].alarm])
  }

  lemma ResolvingKeepsOneActive(s: Store, s': Store)
    requires OneActive(s) && OnlyResolves(s, s')
    ensures OneActive(s')
  {
    forall a, b, o, k | IsActive(s', a, o, k) && IsActive(s', b, o, k) ensures a == b {
      assert IsActive(s, a, o, k) && IsActive(s, b, o, k);
    }
  }

  lemma EvolvingKeepsTickets(s: Store, s': Store)
    requires OneTicketEach(s) && Evolves(s, s')
    ensures OneTicketEach(s')
  {
    forall a | a in s'.alarms ensures HasTicket(s', a) {
      assert HasTicket(s, a);
      var t :| t in s.tickets && s.tickets[t].alarm == a;
      assert t in s'.tickets && s'.tickets[t].alarm == a;
    }
  }

  lemma EvolvingKeepsSettled(s: Store, s': Store)
    requires OneTicketEach(s) && Evolves(s, s')
    ensures SettledMeansResolved(s')
  {
  }

  lemma EvolvingKeepsStamps(s: Store, s': Store)
    requires Stamped(s) && OnlyResolves(s, s')
    ensures Stamped(s')
  {
  }

  lemma EvolvingIsSound(s: Store, s': Store)
    requires Sound(s) && Evolves(s, s')
    ensures Sound(s')
  {
    EvolvingKeepsTickets(s, s');
    EvolvingKeepsSettled(s, s');
    EvolvingKeepsStamps(s, s');
    ResolvingKeepsOneActive(s, s');
    assert IdsBelowNext(s');
  }

  lemma ResolveAlarmEvolves(s: Store, a: AlarmId)
    requires Linked(s) && SettledMeansResolved(s) && a in s.alarms
    ensures Evolves(s, ResolveAlarm(s, a))
  {
  }

  /** Settling a ticket together with its alarm. */
  lemma SettlingEvolves(s: Store, s': Store, t: TicketId, y: Ticket, notes: string, now: int)
    requires Linked(s) && SettledMeansResolved(s) && t in s.tickets
    requires y.alarm == s.tickets[t].alarm && y.onu == s.tickets[t].onu
    requires s'.tickets == s.tickets[t := y]
    requires s'.alarms == SettleAlarm(s, s.tickets[t].alarm, notes, now)
    requires s'.nextAlarm == s.nextAlarm && s'.nextTicket == s.nextTicket
    ensures Evolves(s, s')
  {
    var a := s.tickets[t].alarm;
    assert s'.alarms[a].status.Resolved?;
    assert s'.alarms[a].onu == s.alarms[a].onu;
    assert OnlyResolves(s, s');
    forall u | u in s.tickets ensures TicketStep(s.tickets[u], s'.tickets[u], s'.alarms[s.tickets[u].alarm]) {
      if u != t {
        assert s'.tickets[u] == s.tickets[u];
      }
    }
  }

  lemma ResolveTicketEvolves(s: Store, t: TicketId, notes: string)
    requires Linked(s) && SettledMeansResolved(s)
    ensures Evolves(s, ResolveTicket(s, t, notes))
  {
    if t in s.tickets {
      var s' := ResolveTicket(s, t, notes);
      SettlingEvolves(s, s', t, s'.tickets[t], notes, s.clock + 1);
    } else {
      NothingEvolves(s, s);
    }
  }

  lemma CloseTicketEvolves(s: Store, actor: Actor, t: TicketId, probe: Probe, notes: string)
    requires Linked(s) && SettledMeansResolved(s)
    ensures Evolves(s, CloseTicket(s, actor, t, probe, notes))
  {
    var s' := CloseTicket(s, actor, t, probe, notes);
    if CloseReply(s, actor, t, probe) == Done {
      SettlingEvolves(s, s', t, s'.tickets[t], "Closed by technician: " + notes, s.clock + 1);
    } else {
      NothingEvolves(s, s');
    }
  }

  /** Live tickets may change their status, and nothing else need change. */
  lemma NothingEvolves(s: Store, s': Store)
    requires Linked(s) && SettledMeansResolved(s) && s'.alarms == s.alarms
    requires s'.nextAlarm == s.nextAlarm && s'.nextTicket == s.nextTicket
    requires s'.tickets.Keys == s.tickets.Keys
    requires forall t :: t in s.tickets ==>
      && s'.tickets[t].alarm == s.tickets[t].alarm && s'.tickets[t].onu == s.tickets[t].onu
      && (s'.tickets[t].status == s.tickets[t].status || !Terminal(s'.tickets[t].status))
    ensures Evolves(s, s')
  {
  }

  lemma AssignTicketEvolves(s: Store, t: TicketId, technician: nat)
    requires Linked(s) && SettledMeansResolved(s)
    ensures Evolves(s, AssignTicket(s, t, technician))
  {
    NothingEvolves(s, AssignTicket(s, t, technician));
  }

  lemma AcknowledgeTicketEvolves(s: Store, actor: Actor, t: TicketId, notes: Option<string>)
    requires Linked(s) && SettledMeansResolved(s)
    ensures Evolves(s, AcknowledgeTicket(s, actor, t, notes))
  {
    NothingEvolves(s, AcknowledgeTicket(s, actor, t, notes));
  }

  lemma DeleteOnuEvolves(s: Store, onu: nat)
    requires Linked(s) && SettledMeansResolved(s)
    ensures Evolves(s, DeleteOnu(s, onu))
  {
  }

  /** Deleting an ONU leaves no alarm with it, and touches the alarms of no other ONU. */
  lemma DeletedOnuIsQuiet(s: Store, onu: nat, o: nat, kind: AlarmType)
    ensures !Alarmed(DeleteOnu(s, onu), onu, kind)
    ensures o != onu ==> forall a :: IsActive(DeleteOnu(s, onu), a, o, kind) <==> IsActive(s, a, o, kind)
  {
    var s' := DeleteOnu(s, onu);
    forall a ensures !IsActive(s', a, onu, kind) {}
    forall a | o != onu ensures IsActive(s', a, o, kind) <==> IsActive(s, a, o, kind) {}
  }

  // ---------------------------------------------------- the converse coupling

  lemma ResolveAlarmKeepsConverse(s: Store, a: AlarmId)
    requires ResolvedMeansSettled(s) && a in s.alarms
    ensures ResolvedMeansSettled(ResolveAlarm(s, a))
  {
  }

  lemma ResolveTicketKeepsConverse(s: Store, t: TicketId, notes: string)
    requires Linked(s) && NoSharedAlarm(s) && ResolvedMeansSettled(s)
    ensures ResolvedMeansSettled(ResolveTicket(s, t, notes))
  {
  }

  lemma CloseTicketKeepsConverse(s: Store, actor: Actor, t: TicketId, probe: Probe, notes: string)
    requires Linked(s) && NoSharedAlarm(s) && ResolvedMeansSettled(s)
    ensures ResolvedMeansSettled(CloseTicket(s, actor, t, probe, notes))
  {
  }

  lemma AcknowledgeKeepsConverse(s: Store, actor: Actor, t: TicketId, notes: Option<string>)
    requires Linked(s) && NoSharedAlarm(s) && ResolvedMeansSettled(s)
    ensures ResolvedMeansSettled(AcknowledgeTicket(s, actor, t, notes))
  {
  }

  /** Assignment keeps "a resolved alarm's ticket is settled" if and only if it is refused or the ticket is live. */
  lemma AssignKeepsConverseIff(s: Store, t: TicketId, technician: nat)
    requires Coupled(s) && ResolvedMeansSettled(s)
    ensures ResolvedMeansSettled(AssignTicket(s, t, technician))
       <==> AssignReply(s, t, technician) != Done || !Terminal(s.tickets[t].status)
  {
    var s' := AssignTicket(s, t, technician);
    if AssignReply(s, t, technician) == Done {
      var a := s.tickets[t].alarm;
      assert s'.tickets[t].alarm == a && s'.tickets[t].status == Assigned;
      if Terminal(s.tickets[t].status) {
        assert s'.alarms[a].status.Resolved?;
      }
    }
  }

  // -------------------------------------------------------------- no flapping

  /** An accepted closing of a Low-Rx ticket leaves its ONU without an active Low-Rx alarm if and only if the
      ticket's own alarm was active or none was: a ticket re-assigned after its alarm was resolved can be closed
      on a good reading while a newer alarm for the same ONU stays active. */
  lemma CloseClearsLowRxIff(s: Store, actor: Actor, t: TicketId, probe: Probe, notes: string)
    requires Sound(s) && CloseReply(s, actor, t, probe) == Done
    requires s.tickets[t].onu.Some? && s.alarms[s.tickets[t].alarm].kind.LowRx?
    ensures
      var onu, s' := s.tickets[t].onu.value, CloseTicket(s, actor, t, probe, notes);
      !Alarmed(s', onu, LowRx)
      <==> s.alarms[s.tickets[t].alarm].status.Active? || !Alarmed(s, onu, LowRx)
    ensures RxSeverity(probe.rx.value) == None
  {
    var onu, a, s' := s.tickets[t].onu.value, s.tickets[t].alarm, CloseTicket(s, actor, t, probe, notes);
    if s.alarms[a].status.Active? {
      assert IsActive(s, a, onu, LowRx);
      forall b ensures !IsActive(s', b, onu, LowRx) {
        if IsActive(s', b, onu, LowRx) {
          assert IsActive(s, b, onu, LowRx);
        }
      }
    } else {
      assert s'.alarms == s.alarms;
      forall b ensures IsActive(s', b, onu, LowRx) == IsActive(s, b, onu, LowRx) {}
    }
  }

  /** While assignment is restricted to live tickets the closing always clears the ONU. */
  lemma CloseClearsLowRx(s: Store, actor: Actor, t: TicketId, probe: Probe, notes: string)
    requires Sound(s) && ResolvedMeansSettled(s) && CloseReply(s, actor, t, probe) == Done
    requires s.tickets[t].onu.Some? && s.alarms[s.tickets[t].alarm].kind.LowRx?
    ensures !Alarmed(CloseTicket(s, actor, t, probe, notes), s.tickets[t].onu.value, LowRx)
  {
    CloseClearsLowRxIff(s, actor, t, probe, notes);
  }

  const QUIET_DESK := Store(map[], map[], map[], {7}, 0, 0, 0)

  /** Such a state is reachable: resolve the ticket, see a second alarm, re-assign the first ticket, close it. */
  lemma CloseCanLeaveLowRx()
    ensures
      var t := TicketId(0);
      var raised := Create(QUIET_DESK, 1, LowRx, Critical, Some(-2900), None);
      var again := Create(ResolveTicket(raised, t, "cleaned"), 1, LowRx, Critical, Some(-2900), None);
      var reassigned := AssignTicket(again, t, 7);
      var probe := Says("working", Some(-2000));
      CloseReply(reassigned, Admin, t, probe) == Done && Alarmed(CloseTicket(reassigned, Admin, t, probe, ""), 1, LowRx)
  {
    var t := TicketId(0);
    var raised := Create(QUIET_DESK, 1, LowRx, Critical, Some(-2900), None);
    var again := Create(ResolveTicket(raised, t, "cleaned"), 1, LowRx, Critical, Some(-2900), None);
    var reassigned := AssignTicket(again, t, 7);
    var probe := Says("working", Some(-2000));
    assert again.tickets[t].status == TicketResolved && again.alarms[AlarmId(0)].status == Resolved;
    assert reassigned.tickets[t].status == Assigned && reassigned.alarms == again.alarms;
    assert IsActive(reassigned, AlarmId(1), 1, LowRx);
    var closed := CloseTicket(reassigned, Admin, t, probe, "");
    assert closed.alarms == again.alarms;
    assert IsActive(closed, AlarmId(1), 1, LowRx);
  }

  /** The guards of every ticket action, over every ticket. */
  lemma LowRxCloseNeedsGoodReading(s: Store, actor: Actor, t: TicketId, probe: Probe, notes: string)
    requires t in s.tickets && s.tickets[t].onu.Some? && s.tickets[t].alarm in s.alarms
    requires s.alarms[s.tickets[t].alarm].kind.LowRx? && MayTouch(actor, s.tickets[t])
    ensures CloseTicket(s, actor, t, probe, notes) != s
       <==> !Terminal(s.tickets[t].status) && probe.Says? && probe.rx.Some? && RxSeverity(probe.rx.value) == None
  {
    assert CloseReply(s, actor, t, probe) == Done ==> CloseTicket(s, actor, t, probe, notes).clock != s.clock;
  }
}
