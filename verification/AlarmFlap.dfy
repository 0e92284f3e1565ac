/** Closing a ticket on a reading, and the poll that sees the same reading. */
module AlarmFlap {
  import opened Options
  import opened Text
  import opened AlarmStore
  import opened AlarmLaws
  import opened AlarmPoll

  /** A ticket for this type of alarm, of an ONU that is still there, is closed on what the device says. */
  predicate ClosesOn(s: Store, actor: Actor, t: TicketId, kind: AlarmType, probe: Probe) {
    && CloseReply(s, actor, t, probe) == Done
    && s.tickets[t].onu.Some? && s.tickets[t].alarm in s.alarms && s.alarms[s.tickets[t].alarm].kind == kind
  }

  /** After a Low-Rx closing, the poll that sees the same power leaves no Low-Rx alarm active for the ONU, not even
      one that the closing had left over. */
  lemma LowRxCloseThenPoll(
    s: Store, actor: Actor, t: TicketId, probe: Probe, notes: string, polled: Store, oper: string)
    requires ClosesOn(s, actor, t, LowRx, probe)
    requires Treated(CloseTicket(s, actor, t, probe, notes), polled, s.tickets[t].onu.value, Seen(oper, probe.rx))
    ensures !Alarmed(polled, s.tickets[t].onu.value, LowRx)
  {
    assert RecoveryReply(LowRx, probe) == Done;
  }

  /** And it raises none, whatever its snapshot. */
  lemma LowRxCloseThenSteer(
    s: Store, actor: Actor, t: TicketId, probe: Probe, notes: string, known: Snapshot, severity: Severity,
    pick: Option<UserId>)
    requires ClosesOn(s, actor, t, LowRx, probe)
    requires
      var closed, key := CloseTicket(s, actor, t, probe, notes), (s.tickets[t].onu.value, LowRx);
      (key in known ==> known[key] in closed.alarms) && (pick.Some? ==> pick.value in closed.users)
    ensures
      var closed, onu := CloseTicket(s, actor, t, probe, notes), s.tickets[t].onu.value;
      var polled := Steer(closed, known, onu, LowRx, RxSeverity(probe.rx.value).Some?, severity, probe.rx, pick);
      && polled.alarms.Keys == closed.alarms.Keys
      && polled.tickets.Keys == closed.tickets.Keys
      && forall a :: a in s.alarms && !s.alarms[a].status.Active? ==> !polled.alarms[a].status.Active?
  {
    assert RecoveryReply(LowRx, probe) == Done;
  }

  /** After a loss-of-signal closing, the poll that sees the same state has the ONU alarmed again if and only if the
      accepted state is neither word exactly: closing looks for the words anywhere in it. */
  lemma LosCloseThenPollIff(
    s: Store, actor: Actor, t: TicketId, probe: Probe, notes: string, polled: Store, rx: Option<int>)
    requires ClosesOn(s, actor, t, Los, probe)
    requires Treated(CloseTicket(s, actor, t, probe, notes), polled, s.tickets[t].onu.value, Seen(probe.oper, rx))
    ensures Alarmed(polled, s.tickets[t].onu.value, Los) <==> probe.oper != "working" && probe.oper != "online"
  {
    assert RecoveryReply(Los, probe) == Done;
    if Contains(probe.oper, "working") {
      var i: nat :| OccursAt(probe.oper, "working", i);
    } else {
      var i: nat :| OccursAt(probe.oper, "online", i);
    }
  }

  /** Such a state: an alarm, its ticket closed on it, and the same alarm raised by the next poll. */
  lemma LosCloseCanFlap()
    ensures
      var raised, probe := Create(QUIET_DESK, 1, Los, Critical, None, None), Says("notworking", None);
      var closed := CloseTicket(raised, Admin, TicketId(0), probe, "");
      && ClosesOn(raised, Admin, TicketId(0), Los, probe)
      && !Alarmed(closed, 1, Los) && IsSnapshot(map[], closed, {1})
      && Alarmed(Steer(closed, map[], 1, Los, IsOffline(probe.oper), Critical, None, None), 1, Los)
  {
    var raised, probe := Create(QUIET_DESK, 1, Los, Critical, None, None), Says("notworking", None);
    assert OccursAt(probe.oper, "working", 3);
    assert Contains(probe.oper, "working");
    var closed := CloseTicket(raised, Admin, TicketId(0), probe, "");
    assert closed.alarms.Keys == {AlarmId(0)} && closed.alarms[AlarmId(0)].status.Resolved?;
    var polled := Steer(closed, map[], 1, Los, IsOffline(probe.oper), Critical, None, None);
    assert IsActive(polled, AlarmId(1), 1, Los);
  }
}
