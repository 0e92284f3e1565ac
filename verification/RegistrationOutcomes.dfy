/** What provisioning and removal leave in both stores, outcome by outcome, in terms of the request alone. */
module RegistrationOutcomes {
  import opened Options
  import opened Registration
  import opened RegistrationLaws

  /** The state with one more row. */
  function WithRow(s: State, row: Row): State {
    s.(rows := s.rows[RowId(s.nextRow) := row], nextRow := s.nextRow + 1)
  }

  /** The state with one more registration. */
  function WithEntry(s: State, port: PonPort, e: Entry): State {
    s.(olts := s.olts[port := s.On(port) + [e]])
  }

  predicate HasSerial(listing: seq<Entry>, serial: string) {
    exists e :: e in listing && e.serial == serial
  }

  predicate Shown(read: ReadOut, serial: string) { read.Shows? && HasSerial(read.listing, serial) }

  predicate NoRowHas(s: State, serial: string) {
    forall r :: r in s.rows ==> s.rows[r].serial != serial
  }

  predicate HasId(listing: seq<Entry>, id: nat) {
    exists e :: e in listing && e.id == id
  }

  predicate HasRow(s: State, port: PonPort, id: nat) {
    exists r :: r in s.rows && s.rows[r].port == port && s.rows[r].onuId == id
  }

  /** The least of 1..128 that no registration of the listing has. */
  ghost predicate LeastUnlisted(listing: seq<Entry>, k: nat) {
    1 <= k <= 128 && !HasId(listing, k) && forall j :: 1 <= j < k ==> HasId(listing, j)
  }

  /** The least of 1..128 that no row of the port has. */
  ghost predicate LeastUnsaved(s: State, port: PonPort, k: nat) {
    1 <= k <= 128 && !HasRow(s, port, k) && forall j :: 1 <= j < k ==> HasRow(s, port, j)
  }

  lemma UnlistedIsLeastFree(listing: seq<Entry>, k: nat)
    requires LeastUnlisted(listing, k)
    ensures LeastFree(IdsOf(listing)) == Some(k)
  {
    forall j: nat ensures j in IdsOf(listing) <==> HasId(listing, j) {}
    LeastFreeIsLeast(IdsOf(listing), k);
  }

  lemma UnsavedIsLeastFree(s: State, port: PonPort, k: nat)
    requires LeastUnsaved(s, port, k)
    ensures FreshFromDb(s, port) == Fresh(k)
  {
    forall j: nat ensures j in DbIds(s, port) <==> HasRow(s, port, j) {}
    LeastFreeIsLeast(DbIds(s, port), k);
  }

  // --------------------------------------------------------------- provisioning

  /** What the reply says. After Ok(k) exactly one row is new, at ID k, and unless the read showed the serial exactly
      one registration, of that ID, serial and type; after any other reply no row is. */
  lemma ProvisionSaves(
    s: State, port: PonPort, serial: string, customer: string, onuType: string, read: ReadOut, x: Exchange, rest: Rest)
    ensures
      var (s', reply) := ProvisionOnu(s, port, serial, customer, onuType, read, x, rest);
      && (reply.Ok? ==>
            s' == WithRow(if Shown(read, serial) then s else WithEntry(s, port, Entry(reply.id, onuType, serial)),
                          Row(port, reply.id, serial, customer)))
      && (reply.Ok? && Shown(read, serial) ==> Listed(read.listing, reply.id, serial))
      && (!reply.Ok? ==> s'.rows == s.rows && s'.nextRow == s.nextRow && s'.notified == s.notified)
      && (reply == DuplicateSerial <==> !NoRowHas(s, serial))
      && (reply.Ok? ==> rest == Completes && (Shown(read, serial) || x == Answered))
  {
    if read.Shows? { IdBySerialFinds(read.listing, serial); }
  }

  /** So the ONU is registered under the row's ID, when the read was credible. */
  lemma ProvisionedIsListed(
    s: State, port: PonPort, serial: string, customer: string, onuType: string, read: ReadOut, x: Exchange, rest: Rest)
    requires Credible(s, port, read)
    ensures
      var (s', reply) := ProvisionOnu(s, port, serial, customer, onuType, read, x, rest);
      reply.Ok? ==> Listed(s'.On(port), reply.id, serial)
  {
    var (s', reply) := ProvisionOnu(s, port, serial, customer, onuType, read, x, rest);
    ProvisionSaves(s, port, serial, customer, onuType, read, x, rest);
    if reply.Ok? && !Shown(read, serial) {
      assert Entry(reply.id, onuType, serial) in s'.On(port);
    } else if reply.Ok? {
      var e :| e in read.listing && e.id == reply.id && e.serial == serial;
      assert e in s'.On(port);
    }
  }

  /** The four ways in which authorizing and saving an ID that is free in both stores can go. */
  predicate FreshOutcome(s: State, port: PonPort, row: Row, onuType: string, x: Exchange, rest: Rest, r: (State, Reply)) {
    var registered := WithEntry(s, port, Entry(row.onuId, onuType, row.serial));
    match x
    case LostBefore => r == (s, DeviceError)
    case LostAfter => r == (registered, DeviceError)
    case Answered =>
      r == if rest == Completes then (WithRow(registered, row), Ok(row.onuId)) else (registered, LaterError)
  }

  lemma FreshIsInsertable(s: State, row: Row)
    requires Inv(s) && NoRowHas(s, row.serial) && !HasId(s.On(row.port), row.onuId)
    requires !HasSerial(s.On(row.port), row.serial)
    ensures Insertable(s, row) && Registrable(s.On(row.port), row.onuId, row.serial)
  {
    RegistrableMeansInsertable(s, row.port, row.onuId, row.serial);
  }

  /** A new serial, with a truthful read: it gets the least ID that is free on the port. */
  lemma ProvisionTakesLeastFree(
    s: State, port: PonPort, serial: string, customer: string, onuType: string, k: nat, x: Exchange, rest: Rest)
    requires Inv(s) && NoRowHas(s, serial) && !HasSerial(s.On(port), serial) && LeastUnlisted(s.On(port), k)
    ensures FreshOutcome(s, port, Row(port, k, serial, customer), onuType, x, rest,
                         ProvisionOnu(s, port, serial, customer, onuType, Shows(s.On(port)), x, rest))
  {
    IdBySerialFinds(s.On(port), serial);
    UnlistedIsLeastFree(s.On(port), k);
    FreshIsInsertable(s, Row(port, k, serial, customer));
  }

  /** When the read raises it gets the least ID that the database leaves free, if the port has that and the serial
      free as well; otherwise the device refuses and nothing changes. */
  lemma ProvisionWithoutRead(
    s: State, port: PonPort, serial: string, customer: string, onuType: string, k: nat, x: Exchange, rest: Rest)
    requires Inv(s) && NoRowHas(s, serial) && LeastUnsaved(s, port, k)
    ensures
      var r := ProvisionOnu(s, port, serial, customer, onuType, ReadRaises, x, rest);
      if HasSerial(s.On(port), serial) || HasId(s.On(port), k) then r == (s, DeviceError)
      else FreshOutcome(s, port, Row(port, k, serial, customer), onuType, x, rest, r)
  {
    UnsavedIsLeastFree(s, port, k);
    if !HasSerial(s.On(port), serial) && !HasId(s.On(port), k) {
      FreshIsInsertable(s, Row(port, k, serial, customer));
    }
  }

  /** A stale read whose free ID a row has already: the database decides, as when the read raises. */
  lemma ProvisionAfterCollision(
    s: State, port: PonPort, serial: string, customer: string, onuType: string, listing: seq<Entry>, i: nat,
    x: Exchange, rest: Rest)
    requires !HasSerial(listing, serial) && LeastUnlisted(listing, i) && HasRow(s, port, i)
    ensures ProvisionOnu(s, port, serial, customer, onuType, Shows(listing), x, rest)
         == ProvisionOnu(s, port, serial, customer, onuType, ReadRaises, x, rest)
  {
    IdBySerialFinds(listing, serial);
    UnlistedIsLeastFree(listing, i);
  }

  // ------------------------------------------------------------------- the BSS flow

  lemma BssSaves(
    s: State, port: PonPort, serial: string, customer: string, onuType: string, read: ReadOut, x: Exchange, rest: Rest,
    notify: bool)
    ensures
      var (s', reply) := BssProvision(s, port, serial, customer, onuType, read, x, rest, notify);
      && (reply.Ok? ==>
            s' == WithRow(WithEntry(s, port, Entry(reply.id, onuType, serial)), Row(port, reply.id, serial, customer))
                  .(notified := if notify then s.notified + {RowId(s.nextRow)} else s.notified))
      && (!reply.Ok? ==> s'.rows == s.rows && s'.nextRow == s.nextRow && s'.notified == s.notified)
      && (reply == DuplicateSerial <==> !NoRowHas(s, serial))
      && (reply == DuplicateCustomer <==>
            NoRowHas(s, serial) && exists r :: r in s.rows && s.rows[r].customer == customer)
      && (reply.Ok? ==> rest == Completes && x == Answered)
  {
  }

  /** The ID is the least that the listing read leaves free, or 1 when the read raises; the device refuses it when
      the port has it, or the serial, already. */
  lemma BssTakesLeastFree(
    s: State, port: PonPort, serial: string, customer: string, onuType: string, read: ReadOut, k: nat, x: Exchange,
    rest: Rest)
    requires Inv(s) && NoRowHas(s, serial) && forall r :: r in s.rows ==> s.rows[r].customer != customer
    requires if read.Shows? then LeastUnlisted(read.listing, k) else k == 1
    ensures
      var r := BssProvision(s, port, serial, customer, onuType, read, x, rest, false);
      if HasSerial(s.On(port), serial) || HasId(s.On(port), k) then r == (s, DeviceError)
      else FreshOutcome(s, port, Row(port, k, serial, customer), onuType, x, rest, r)
  {
    if read.Shows? { UnlistedIsLeastFree(read.listing, k); }
    if !HasSerial(s.On(port), serial) && !HasId(s.On(port), k) {
      FreshIsInsertable(s, Row(port, k, serial, customer));
    }
  }

  // ----------------------------------------------------------------------- removal

  /** The removal takes every registration under the row's ID when the device acts, and the row when it succeeds. */
  lemma RemoveEffect(s: State, r: RowId, x: Exchange, force: bool, write: Rest, port: PonPort, e: Entry)
    requires r in s.rows
    ensures
      var (s', ok) := RemoveOnu(s, r, x, force, write);
      && (ok <==> (x == Answered || force) && write == Completes && r !in s.notified)
      && s'.rows == (if ok then s.rows - {r} else s.rows)
      && s'.nextRow == s.nextRow && s'.notified == s.notified
      && (e in s'.On(port) <==>
            e in s.On(port) && (x == LostBefore || port != s.rows[r].port || e.id != s.rows[r].onuId))
  {
    DeregisterEffect(s, s.rows[r].port, s.rows[r].onuId, x, port, e);
    var s1 := Deregister(s, s.rows[r].port, s.rows[r].onuId, x);
    assert s1.On(port) == RemoveOnu(s, r, x, force, write).0.On(port);
  }

  /** Some row of the list stands for this registration's place. */
  predicate AtOneOf(s: State, rs: seq<RowId>, port: PonPort, e: Entry)
    requires AllRows(s, rs)
  {
    exists i :: 0 <= i < |rs| && s.rows[rs[i]].port == port && s.rows[rs[i]].onuId == e.id
  }

  lemma {:induction false} RemoveEachEffect(s: State, rs: seq<RowId>, ms: seq<Removal>, port: PonPort, e: Entry)
    requires |ms| == |rs| && AllRows(s, rs) && AllDistinct(rs)
    ensures
      var (s', ok) := RemoveEach(s, rs, ms);
      && (ok ==> s'.rows == s.rows - (set r | r in rs))
      && (ok ==> (e in s'.On(port) <==> e in s.On(port) && !AtOneOf(s, rs, port, e)))
      && (e in s.On(port) && !AtOneOf(s, rs, port, e) ==> e in s'.On(port))
      && s'.nextRow == s.nextRow && s'.notified == s.notified
    decreases |rs|
  {
    if rs != [] {
      var (s1, ok) := RemoveOnu(s, rs[0], ms[0].x, false, ms[0].write);
      RemoveEffect(s, rs[0], ms[0].x, false, ms[0].write, port, e);
      AtOneOfStep(s, rs, port, e);
      if ok {
        var rest := rs[1..];
        assert forall i :: 0 <= i < |rest| ==> rest[i] == rs[i + 1] && rest[i] in s1.rows;
        RemoveEachEffect(s1, rest, ms[1..], port, e);
        assert AtOneOf(s1, rest, port, e) <==> AtOneOf(s, rest, port, e);
        assert (set r | r in rs) == {rs[0]} + set r | r in rest;
      }
    }
  }

  lemma AtOneOfStep(s: State, rs: seq<RowId>, port: PonPort, e: Entry)
    requires rs != [] && AllRows(s, rs)
    ensures AllRows(s, rs[1..])
    ensures AtOneOf(s, rs, port, e) <==>
      (s.rows[rs[0]].port == port && s.rows[rs[0]].onuId == e.id) || AtOneOf(s, rs[1..], port, e)
  {
    var rest := rs[1..];
    assert forall i :: 0 <= i < |rest| ==> rest[i] == rs[i + 1];
    if AtOneOf(s, rest, port, e) {
      var i :| 0 <= i < |rest| && s.rows[rest[i]].port == port && s.rows[rest[i]].onuId == e.id;
      assert s.rows[rs[i + 1]].port == port;
    }
  }

  predicate AllAnswered(s: State, rs: seq<RowId>, ms: seq<Removal>)
    requires |ms| == |rs|
  {
    forall i :: 0 <= i < |rs| ==> ms[i].x == Answered && ms[i].write == Completes && rs[i] !in s.notified
  }

  /** Deprovisioning succeeds exactly when every exchange is answered and every delete and the commit go through.
      Then it takes exactly the customer's rows and the registrations at their places; otherwise it takes no row. */
  lemma DeprovisionEffect(s: State, rs: seq<RowId>, ms: seq<Removal>, commit: Rest, port: PonPort, e: Entry)
    requires |ms| == |rs| && AllRows(s, rs) && AllDistinct(rs)
    ensures
      var (s', ok) := Deprovision(s, rs, ms, commit);
      && (ok <==> commit == Completes && AllAnswered(s, rs, ms))
      && s'.rows == (if ok then s.rows - (set r | r in rs) else s.rows)
      && (ok ==> (e in s'.On(port) <==> e in s.On(port) && !AtOneOf(s, rs, port, e)))
      && (e in s.On(port) && !AtOneOf(s, rs, port, e) ==> e in s'.On(port))
      && s'.nextRow == s.nextRow && s'.notified == s.notified
  {
    RemoveEachOutcome(s, rs, ms);
    RemoveEachEffect(s, rs, ms, port, e);
    var s1 := RemoveEach(s, rs, ms).0;
    assert s1.On(port) == Deprovision(s, rs, ms, commit).0.On(port);
    assert AllGo(s, rs, ms) <==> AllAnswered(s, rs, ms);
  }
}
