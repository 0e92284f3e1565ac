/**
 One poll of an OLT: what the device reports, what a single ONU visit does with
 it, and why an edge-triggered visit reaches the level-triggered goal.
 */
module AlarmPoll {
  import opened Options
  import opened AlarmStore
  import opened AlarmLaws
  import opened Text

  datatype Port = Port(frame: int, slot: int, port: int)

  /** An ONU row: `id` is the primary key, `onuId` its number on the port. */
  datatype Onu = Onu(id: nat, port: Port, onuId: int)

  /** What the bulk queries of a port give; a query that raises gives nothing. */
  datatype PortReport = PortReport(states: map<int, string>, rx: map<int, int>)

  datatype Detail = Raised | Parsed(oper: string, rx: Option<int>)

  /** The device during one poll. */
  datatype World = World(report: Port -> PortReport, detail: nat -> Detail)

  /** What the poller concludes about an ONU; it skips an ONU whose fallback query raised. */
  datatype Reading = Skipped | Seen(oper: string, rx: Option<int>)

  function Lookup<K, V>(m: map<K, V>, k: K): Option<V> {
    if k in m then Some(m[k]) else None
  }

  function StateOf(states: map<int, string>, onuId: int): string {
    if onuId in states then states[onuId] else ""
  }

  /** The detail query is the fallback for ports on which the bulk state query gave nothing at all. */
  function ReadingOf(w: World, onu: Onu): Reading {
    var r := w.report(onu.port);
    if StateOf(r.states, onu.onuId) == "" && r.states == map[] then
      match w.detail(onu.id)
      case Raised => Skipped
      case Parsed(oper, rx) => Seen(Lower(oper), if rx.Some? then rx else Lookup(r.rx, onu.onuId))
    else Seen(StateOf(r.states, onu.onuId), Lookup(r.rx, onu.onuId))
  }

  // ------------------------------------------------------------------- visit

  type Snapshot = map<(nat, AlarmType), AlarmId>

  /** Raise or clear one alarm of one ONU, going by the snapshot for whether it is raised. */
  function Steer(
    s: Store, known: Snapshot, onu: nat, kind: AlarmType, wanted: bool,
    severity: Severity, rx: Option<int>, pick: Option<UserId>): Store
    requires (onu, kind) in known ==> known[(onu, kind)] in s.alarms
    requires pick.Some? ==> pick.value in s.users
  {
    if wanted then
      if (onu, kind) in known then s else Create(s, onu, kind, severity, rx, pick)
    else
      if (onu, kind) in known then ResolveAlarm(s, known[(onu, kind)]) else s
  }

  /** The active alarms of an ONU are the same ones in both stores. */
  ghost predicate SameAlarms(s: Store, s': Store, onu: nat) {
    forall a, kind :: IsActive(s, a, onu, kind) <==> IsActive(s', a, onu, kind)
  }

  ghost predicate SameAlarm(s: Store, s': Store, onu: nat, kind: AlarmType) {
    forall a :: IsActive(s, a, onu, kind) <==> IsActive(s', a, onu, kind)
  }

  /** The snapshot is right about this alarm. */
  ghost predicate Fits(s: Store, known: Snapshot, onu: nat, kind: AlarmType) {
    && (Alarmed(s, onu, kind) ==> (onu, kind) in known)
    && ((onu, kind) in known ==> IsActive(s, known[(onu, kind)], onu, kind))
  }

  /** The snapshot may be out of date, but knows every alarm that is still active. */
  ghost predicate StaleButSafe(s: Store, known: Snapshot, onu: nat, kind: AlarmType) {
    && (Alarmed(s, onu, kind) ==> (onu, kind) in known)
    && ((onu, kind) in known ==> known[(onu, kind)] in s.alarms)
  }

  lemma ResolveChangesOne(s: Store, a: AlarmId, b: AlarmId, onu: nat, kind: AlarmType)
    requires a in s.alarms
    ensures IsActive(ResolveAlarm(s, a), b, onu, kind) <==> IsActive(s, b, onu, kind) && b != a
  {
  }

  /** Steering touches no other ONU and no other alarm type. */
  lemma SteerIsLocal(
    s: Store, known: Snapshot, onu: nat, kind: AlarmType, wanted: bool,
    severity: Severity, rx: Option<int>, pick: Option<UserId>, o: nat, k: AlarmType)
    requires Coupled(s) && (pick.Some? ==> pick.value in s.users)
    requires (onu, kind) in known ==>
      && known[(onu, kind)] in s.alarms
      && s.alarms[known[(onu, kind)]].kind == kind
      && (s.alarms[known[(onu, kind)]].onu == Some(onu) || s.alarms[known[(onu, kind)]].onu == None)
    requires (o, k) != (onu, kind)
    ensures SameAlarm(s, Steer(s, known, onu, kind, wanted, severity, rx, pick), o, k)
  {
    forall a ensures IsActive(s, a, o, k)
                <==> IsActive(Steer(s, known, onu, kind, wanted, severity, rx, pick), a, o, k) {
      if wanted && (onu, kind) !in known {
        CreateAlarms(s, onu, kind, severity, rx, pick, a, o, k);
      } else if !wanted && (onu, kind) in known {
        ResolveChangesOne(s, known[(onu, kind)], a, o, k);
      }
    }
  }

  /** Sound stores stay sound even when the snapshot is stale. */
  lemma SteerIsSound(
    s: Store, known: Snapshot, onu: nat, kind: AlarmType, wanted: bool,
    severity: Severity, rx: Option<int>, pick: Option<UserId>)
    requires Sound(s) && StaleButSafe(s, known, onu, kind) && (pick.Some? ==> pick.value in s.users)
    ensures Sound(Steer(s, known, onu, kind, wanted, severity, rx, pick))
  {
    if wanted && (onu, kind) !in known {
      CreateIsCoupled(s, onu, kind, severity, rx, pick);
      CreateKeepsOneActive(s, onu, kind, severity, rx, pick);
    } else if !wanted && (onu, kind) in known {
      ResolveAlarmEvolves(s, known[(onu, kind)]);
      EvolvingIsSound(s, ResolveAlarm(s, known[(onu, kind)]));
    }
  }

  /** With a snapshot that fits, the alarm ends up active exactly when it is wanted. */
  lemma SteerReachesLevel(
    s: Store, known: Snapshot, onu: nat, kind: AlarmType, wanted: bool,
    severity: Severity, rx: Option<int>, pick: Option<UserId>)
    requires Sound(s) && Fits(s, known, onu, kind) && (pick.Some? ==> pick.value in s.users)
    ensures Alarmed(Steer(s, known, onu, kind, wanted, severity, rx, pick), onu, kind) <==> wanted
  {
    var s' := Steer(s, known, onu, kind, wanted, severity, rx, pick);
    if wanted {
      if (onu, kind) in known {
        assert IsActive(s', known[(onu, kind)], onu, kind);
      } else {
        CreateAlarms(s, onu, kind, severity, rx, pick, AlarmId(s.nextAlarm), onu, kind);
        assert IsActive(s', AlarmId(s.nextAlarm), onu, kind);
      }
    } else {
      forall a ensures !IsActive(s', a, onu, kind) {
        if (onu, kind) in known {
          ResolveChangesOne(s, known[(onu, kind)], a, onu, kind);
          assert IsActive(s, a, onu, kind) ==> a == known[(onu, kind)];
        }
      }
    }
  }

  /** The poller's test of the operating state; an empty state counts as not offline. */
  predicate IsOffline(oper: string) {
    oper != "" && oper !in {"working", "online"}
  }

  // ------------------------------------------------------------- level goal

  /** The level-triggered goal for one ONU, given the store before the poll. */
  ghost predicate Treated(before: Store, s: Store, onu: nat, r: Reading) {
    match r
    case Skipped => SameAlarms(before, s, onu)
    case Seen(oper, rx) =>
      && (Alarmed(s, onu, Los) <==> IsOffline(oper))
      && (rx.Some? ==> (Alarmed(s, onu, LowRx) <==> rx.value <= RX_MINOR))
      && (rx.None? ==> SameAlarm(before, s, onu, LowRx))
  }

  lemma TreatedStays(before: Store, s: Store, s': Store, onu: nat, r: Reading)
    requires Treated(before, s, onu, r) && SameAlarms(s, s', onu)
    ensures Treated(before, s', onu, r)
  {
    AlarmedStays(s, s', onu, Los);
    AlarmedStays(s, s', onu, LowRx);
  }

  lemma AlarmedStays(s: Store, s': Store, onu: nat, kind: AlarmType)
    requires SameAlarms(s, s', onu)
    ensures Alarmed(s, onu, kind) <==> Alarmed(s', onu, kind)
  {
    if Alarmed(s, onu, kind) {
      var a :| IsActive(s, a, onu, kind);
      assert IsActive(s', a, onu, kind);
    }
    if Alarmed(s', onu, kind) {
      var a :| IsActive(s', a, onu, kind);
      assert IsActive(s, a, onu, kind);
    }
  }

  ghost predicate IsSnapshot(known: Snapshot, s: Store, ids: set<nat>) {
    && (forall a, onu, kind :: IsActive(s, a, onu, kind) && onu in ids ==> (onu, kind) in known && known[(onu, kind)] == a)
    && (forall key :: key in known ==> key.0 in ids && IsActive(s, known[key], key.0, key.1))
  }

  lemma SnapshotFits(known: Snapshot, before: Store, s: Store, ids: set<nat>, onu: nat, kind: AlarmType)
    requires IsSnapshot(known, before, ids) && onu in ids && SameAlarm(before, s, onu, kind)
    ensures Fits(s, known, onu, kind)
  {
    if Alarmed(s, onu, kind) {
      var a :| IsActive(s, a, onu, kind);
      assert IsActive(before, a, onu, kind);
    }
  }

  lemma SameAlarmsTrans(s0: Store, s1: Store, s2: Store, onu: nat)
    requires SameAlarms(s0, s1, onu) && SameAlarms(s1, s2, onu)
    ensures SameAlarms(s0, s2, onu)
  {
  }

  /** Two steps on one ONU that leave every other ONU alone. */
  lemma OthersKept(s0: Store, s1: Store, s2: Store, onu: nat)
    requires forall o: nat, k :: o != onu ==> SameAlarm(s0, s1, o, k) && SameAlarm(s1, s2, o, k)
    ensures forall o: nat :: o != onu ==> SameAlarms(s0, s2, o)
  {
    forall o: nat, a, k | o != onu ensures IsActive(s0, a, o, k) <==> IsActive(s2, a, o, k) {
      assert SameAlarm(s0, s1, o, k) && SameAlarm(s1, s2, o, k);
    }
  }

  lemma FitsStays(s: Store, s': Store, known: Snapshot, onu: nat, kind: AlarmType)
    requires Fits(s, known, onu, kind) && SameAlarm(s, s', onu, kind)
    ensures Fits(s', known, onu, kind)
  {
    if Alarmed(s', onu, kind) {
      var a :| IsActive(s', a, onu, kind);
      assert IsActive(s, a, onu, kind);
    }
  }

  lemma AlarmStays(s: Store, s': Store, onu: nat, kind: AlarmType)
    requires SameAlarm(s, s', onu, kind)
    ensures Alarmed(s, onu, kind) <==> Alarmed(s', onu, kind)
  {
    if Alarmed(s, onu, kind) {
      var a :| IsActive(s, a, onu, kind);
      assert IsActive(s', a, onu, kind);
    }
    if Alarmed(s', onu, kind) {
      var a :| IsActive(s', a, onu, kind);
      assert IsActive(s, a, onu, kind);
    }
  }

  /** An ONU untouched until its visit is treated relative to the start of the poll. */
  lemma TreatedFrom(before: Store, s: Store, s': Store, onu: nat, r: Reading)
    requires SameAlarms(before, s, onu) && Treated(s, s', onu, r)
    ensures Treated(before, s', onu, r)
  {
    if r.Skipped? {
      SameAlarmsTrans(before, s, s', onu);
    }
  }

  // ------------------------------------------------- what a raised alarm records

  function BulkPower(w: World, o: Onu): Option<int> {
    var rx := w.report(o.port).rx;
    if o.onuId in rx then Some(rx[o.onuId]) else None
  }

  /** The power an ONU is judged by: that of the detail query where the bulk state query of the port gave nothing,
      when it has one, and else the bulk power. */
  function PowerOf(w: World, o: Onu): Option<int> {
    if w.report(o.port).states == map[] && w.detail(o.id).Parsed? && w.detail(o.id).rx.Some?
    then w.detail(o.id).rx else BulkPower(w, o)
  }

  /** An alarm as this poll raises it. */
  predicate RaisedFor(alarm: Alarm, w: World, o: Onu) {
    && alarm.onu == Some(o.id) && alarm.notes == None && alarm.resolvedAt == None
    && (alarm.kind == Los ==> alarm.severity == Critical && alarm.rx == None)
    && (alarm.kind == LowRx ==>
          && alarm.rx.Some? && alarm.rx == PowerOf(w, o) && alarm.rx.value <= -2600
          && (alarm.severity == Critical <==> alarm.rx.value <= -2800)
          && (alarm.severity == Minor <==> -2700 < alarm.rx.value))
  }

  predicate StillActive(s: Store, s': Store, a: AlarmId) {
    a in s.alarms && a in s'.alarms && s.alarms[a].status.Active? && s'.alarms[a] == s.alarms[a]
  }

  /** Every alarm active afterwards was so before, unchanged, or was raised for one of the ONUs. */
  ghost predicate RaisesOnly(s: Store, s': Store, w: World, onus: seq<Onu>) {
    forall a :: a in s'.alarms && s'.alarms[a].status.Active? && !StillActive(s, s', a) ==>
      exists o :: o in onus && RaisedFor(s'.alarms[a], w, o)
  }

  lemma RaisesOnlyTrans(s0: Store, s1: Store, s2: Store, w: World, onus: seq<Onu>)
    requires RaisesOnly(s0, s1, w, onus) && RaisesOnly(s1, s2, w, onus)
    ensures RaisesOnly(s0, s2, w, onus)
  {
    forall a | a in s2.alarms && s2.alarms[a].status.Active? && !StillActive(s0, s2, a)
      ensures exists o :: o in onus && RaisedFor(s2.alarms[a], w, o)
    {
      if StillActive(s1, s2, a) {
        assert !StillActive(s0, s1, a);
      }
    }
  }

  /** An alarm active after steering one key: as it was, or new and as wanted. */
  predicate SteeredRow(
    s: Store, s': Store, a: AlarmId, onu: nat, kind: AlarmType, wanted: bool, severity: Severity, rx: Option<int>)
  {
    a in s'.alarms && s'.alarms[a].status.Active? && !StillActive(s, s', a) ==>
      wanted && s'.alarms[a] == Alarm(Some(onu), kind, severity, Active, rx, s'.alarms[a].detectedAt, None, None)
  }

  lemma SteerRecords(
    s: Store, known: Snapshot, onu: nat, kind: AlarmType, wanted: bool,
    severity: Severity, rx: Option<int>, pick: Option<UserId>, a: AlarmId)
    requires (onu, kind) in known ==> known[(onu, kind)] in s.alarms
    requires pick.Some? ==> pick.value in s.users
    ensures SteeredRow(s, Steer(s, known, onu, kind, wanted, severity, rx, pick), a, onu, kind, wanted, severity, rx)
  {
  }

  // -------------------------------------------------------- ONUs and ports

  predicate DistinctIds(onus: seq<Onu>) {
    forall i, j :: 0 <= i < j < |onus| ==> onus[i].id != onus[j].id
  }

  function IdSet(onus: seq<Onu>): set<nat> {
    set o | o in onus :: o.id
  }

  predicate NoRepeats(ids: seq<nat>) {
    forall i, j :: 0 <= i < j < |ids| ==> ids[i] != ids[j]
  }

  /** The ONUs of one port, in table order. */
  function OnPort(onus: seq<Onu>, p: Port): seq<Onu>
    decreases |onus|
  {
    if onus == [] then []
    else
      var n := |onus| - 1;
      OnPort(onus[..n], p) + if onus[n].port == p then [onus[n]] else []
  }

  lemma OnPortNext(onus: seq<Onu>, i: nat, p: Port)
    requires i < |onus|
    ensures OnPort(onus[..i + 1], p) == OnPort(onus[..i], p) + if onus[i].port == p then [onus[i]] else []
  {
    assert onus[..i + 1][..i] == onus[..i];
  }

  lemma {:induction false} OnPortHas(onus: seq<Onu>, p: Port, o: Onu)
    ensures o in OnPort(onus, p) <==> o in onus && o.port == p
    decreases |onus|
  {
    if onus != [] {
      var n := |onus| - 1;
      OnPortHas(onus[..n], p, o);
      assert onus == onus[..n] + [onus[n]];
    }
  }

  lemma {:induction false} OnPortDistinct(onus: seq<Onu>, p: Port)
    requires DistinctIds(onus)
    ensures DistinctIds(OnPort(onus, p))
    decreases |onus|
  {
    if onus != [] {
      var n := |onus| - 1;
      OnPortDistinct(onus[..n], p);
      forall k | 0 <= k < |OnPort(onus[..n], p)| ensures OnPort(onus[..n], p)[k].id != onus[n].id {
        OnPortHas(onus[..n], p, OnPort(onus[..n], p)[k]);
      }
    }
  }
}
