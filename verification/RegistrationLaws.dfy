/** What every run of provisioning and removal keeps, and where a step breaks it. */
module RegistrationLaws {
  import opened Options
  import opened Registration

  // --------------------------------------------------------------- invariant

  predicate Listed(listing: seq<Entry>, id: nat, serial: string) {
    exists e :: e in listing && e.id == id && e.serial == serial
  }

  /** Every row is registered on the OLT under its ID and serial. */
  ghost predicate RowsRegistered(s: State) {
    forall r :: r in s.rows ==> Listed(s.On(s.rows[r].port), s.rows[r].onuId, s.rows[r].serial)
  }

  ghost predicate UniqueSerials(s: State) {
    forall q, r :: q in s.rows && r in s.rows && s.rows[q].serial == s.rows[r].serial ==> q == r
  }

  predicate SameLocation(q: Row, r: Row) { q.port == r.port && q.onuId == r.onuId }

  ghost predicate UniqueLocations(s: State) {
    forall q, r :: q in s.rows && r in s.rows && SameLocation(s.rows[q], s.rows[r]) ==> q == r
  }

  /** On one port neither an ID nor a serial is registered twice. */
  ghost predicate Clash(e: Entry, f: Entry) { e.id == f.id || e.serial == f.serial }

  ghost predicate NoClash(listing: seq<Entry>) {
    forall i, j :: 0 <= i < j < |listing| ==> !Clash(listing[i], listing[j])
  }

  ghost predicate PortsConsistent(s: State) {
    forall port :: port in s.olts ==> NoClash(s.olts[port])
  }

  ghost predicate RowIdsBelowNext(s: State) {
    forall r :: r in s.rows ==> r.n < s.nextRow
  }

  /** The foreign key of the notifications. */
  predicate NotificationsRefer(s: State) { s.notified <= s.rows.Keys }

  ghost predicate Inv(s: State) {
    && RowsRegistered(s) && UniqueSerials(s) && UniqueLocations(s) && PortsConsistent(s) && RowIdsBelowNext(s)
    && NotificationsRefer(s)
  }

  /** A listing that shows registrations of the port, all of them or not, and nothing else. */
  ghost predicate Credible(s: State, port: PonPort, read: ReadOut) {
    read.Shows? ==> forall e :: e in read.listing ==> e in s.On(port)
  }

  // ------------------------------------------------------------- authorization

  /** Adding registrations harms no row. */
  ghost predicate OltGrows(s: State, s': State) {
    && s'.rows == s.rows && s'.nextRow == s.nextRow && s'.notified == s.notified
    && (forall port, e :: e in s.On(port) ==> e in s'.On(port))
    && PortsConsistent(s')
  }

  lemma GrowingKeepsInv(s: State, s': State)
    requires Inv(s) && OltGrows(s, s')
    ensures Inv(s')
  {
    forall r | r in s'.rows ensures Listed(s'.On(s'.rows[r].port), s'.rows[r].onuId, s'.rows[r].serial) {
      var row := s.rows[r];
      assert Listed(s.On(row.port), row.onuId, row.serial);
      var e :| e in s.On(row.port) && e.id == row.onuId && e.serial == row.serial;
      assert e in s'.On(row.port);
    }
  }

  lemma AuthorizeGrows(s: State, port: PonPort, e: Entry, x: Exchange)
    requires Inv(s)
    ensures OltGrows(s, Authorize(s, port, e, x))
    ensures AuthorizeOk(s, port, e, x) ==> e in Authorize(s, port, e, x).On(port)
  {
    var s', listing := Authorize(s, port, e, x), s.On(port);
    if !x.LostBefore? && Registrable(listing, e.id, e.serial) {
      assert NoClash(listing + [e]) by {
        forall i, j | 0 <= i < j < |listing + [e]| ensures !Clash((listing + [e])[i], (listing + [e])[j]) {
          assert listing[i] in listing;
        }
      }
    }
  }

  // ------------------------------------------------------------------- saving

  /** An ID free on the OLT is free in the database. */
  lemma RegistrableMeansInsertable(s: State, port: PonPort, id: nat, serial: string)
    requires RowsRegistered(s) && Registrable(s.On(port), id, serial)
    ensures !DbTaken(s, port, id)
  {
  }

  /** Nor can the ID of a serial that has no row be held by another row. */
  lemma OrphanMeansInsertable(s: State, port: PonPort, e: Entry)
    requires Inv(s) && e in s.On(port) && !SerialInDb(s, e.serial)
    ensures !DbTaken(s, port, e.id)
  {
    if DbTaken(s, port, e.id) {
      var r :| r in s.rows && s.rows[r].port == port && s.rows[r].onuId == e.id;
      assert Listed(s.On(port), e.id, s.rows[r].serial);
      var f :| f in s.On(port) && f.id == e.id && f.serial == s.rows[r].serial;
      SameIdSameEntry(s.On(port), e, f);
      assert false;
    }
  }

  lemma SameIdSameEntry(listing: seq<Entry>, e: Entry, f: Entry)
    requires NoClash(listing) && e in listing && f in listing && Clash(e, f)
    ensures e == f
  {
    var i :| 0 <= i < |listing| && listing[i] == e;
    var j :| 0 <= j < |listing| && listing[j] == f;
    SameIndex(listing, i, j);
  }

  lemma SameIndex(listing: seq<Entry>, i: nat, j: nat)
    requires NoClash(listing) && i < |listing| && j < |listing| && Clash(listing[i], listing[j])
    ensures i == j
  {
  }

  lemma InsertKeepsUnique(s: State, s': State, id: RowId, row: Row)
    requires UniqueSerials(s) && UniqueLocations(s) && Insertable(s, row)
    requires id !in s.rows && s'.rows == s.rows[id := row]
    ensures UniqueSerials(s') && UniqueLocations(s')
  {
    forall q | q in s.rows ensures s.rows[q].serial != row.serial && !SameLocation(s.rows[q], row) {}
  }

  lemma SaveKeepsInv(s: State, row: Row, rest: Rest)
    requires Inv(s) && Listed(s.On(row.port), row.onuId, row.serial)
    ensures Inv(Save(s, row, rest).0)
  {
    if rest.Completes? && Insertable(s, row) {
      InsertKeepsUnique(s, Save(s, row, rest).0, RowId(s.nextRow), row);
    }
  }

  // --------------------------------------------------------------- provisioning

  lemma ReusedIsRegistered(s: State, port: PonPort, serial: string, read: ReadOut, k: nat)
    requires Inv(s) && Credible(s, port, read) && ChooseId(s, port, serial, read) == Reuse(k)
    ensures Listed(s.On(port), k, serial)
    ensures !SerialInDb(s, serial) ==> !DbTaken(s, port, k)
  {
    IdBySerialFinds(read.listing, serial);
    var e :| e in read.listing && e.id == k && e.serial == serial;
    assert e in s.On(port);
    if !SerialInDb(s, serial) {
      OrphanMeansInsertable(s, port, e);
    }
  }

  lemma ProvisionKeepsInv(
    s: State, port: PonPort, serial: string, customer: string, onuType: string, read: ReadOut, x: Exchange, rest: Rest)
    requires Inv(s) && Credible(s, port, read)
    ensures
      var (s', reply) := ProvisionOnu(s, port, serial, customer, onuType, read, x, rest);
      Inv(s') && reply != IntegrityError
  {
    if !SerialInDb(s, serial) {
      var choice := ChooseId(s, port, serial, read);
      if choice.Reuse? {
        ReusedSave(s, port, serial, customer, onuType, read, choice.id, x, rest);
      } else if choice.Fresh? {
        FreshSave(s, port, serial, customer, onuType, read, choice.id, x, rest);
      }
    }
  }

  lemma ReusedSave(
    s: State, port: PonPort, serial: string, customer: string, onuType: string, read: ReadOut, k: nat, x: Exchange,
    rest: Rest)
    requires Inv(s) && Credible(s, port, read) && !SerialInDb(s, serial)
    requires ChooseId(s, port, serial, read) == Reuse(k)
    ensures
      var (s', reply) := ProvisionOnu(s, port, serial, customer, onuType, read, x, rest);
      Inv(s') && reply != IntegrityError
  {
    var row := Row(port, k, serial, customer);
    assert ProvisionOnu(s, port, serial, customer, onuType, read, x, rest) == Save(s, row, rest);
    ReusedIsRegistered(s, port, serial, read, k);
    SaveKeepsInv(s, row, rest);
  }

  lemma FreshSave(
    s: State, port: PonPort, serial: string, customer: string, onuType: string, read: ReadOut, k: nat, x: Exchange,
    rest: Rest)
    requires Inv(s) && !SerialInDb(s, serial) && ChooseId(s, port, serial, read) == Fresh(k)
    ensures
      var (s', reply) := ProvisionOnu(s, port, serial, customer, onuType, read, x, rest);
      Inv(s') && reply != IntegrityError
  {
    var e := Entry(k, onuType, serial);
    assert ProvisionOnu(s, port, serial, customer, onuType, read, x, rest)
        == if AuthorizeOk(s, port, e, x) then Save(Authorize(s, port, e, x), Row(port, k, serial, customer), rest)
           else (Authorize(s, port, e, x), DeviceError);
    AuthorizedSave(s, port, e, customer, x, rest);
  }

  lemma AuthorizedSave(s: State, port: PonPort, e: Entry, customer: string, x: Exchange, rest: Rest)
    requires Inv(s) && !SerialInDb(s, e.serial)
    ensures
      var s' := Authorize(s, port, e, x);
      Inv(s') && (AuthorizeOk(s, port, e, x) ==>
        var (s'', reply) := Save(s', Row(port, e.id, e.serial, customer), rest);
        Inv(s'') && reply != IntegrityError)
  {
    var s', row := Authorize(s, port, e, x), Row(port, e.id, e.serial, customer);
    AuthorizeGrows(s, port, e, x);
    GrowingKeepsInv(s, s');
    if AuthorizeOk(s, port, e, x) {
      RegistrableMeansInsertable(s, port, e.id, e.serial);
      assert Listed(s'.On(port), e.id, e.serial);
      SaveKeepsInv(s', row, rest);
      assert Insertable(s', row);
    }
  }

  lemma BssProvisionKeepsInv(
    s: State, port: PonPort, serial: string, customer: string, onuType: string, read: ReadOut, x: Exchange, rest: Rest,
    notify: bool)
    requires Inv(s)
    ensures
      var (s', reply) := BssProvision(s, port, serial, customer, onuType, read, x, rest, notify);
      Inv(s') && reply != IntegrityError
  {
    if !SerialInDb(s, serial) && !CustomerInDb(s, customer) {
      var next := if read.ReadRaises? then Some(1) else LeastFree(IdsOf(read.listing));
      if next.Some? {
        var e := Entry(next.value, onuType, serial);
        var s' := Authorize(s, port, e, x);
        AuthorizedSave(s, port, e, customer, x, rest);
        if AuthorizeOk(s, port, e, x) && rest.Completes? {
          NotifyKeepsInv(s', Row(port, e.id, serial, customer), notify);
        }
      }
    }
  }

  lemma NotifyKeepsInv(s: State, row: Row, notify: bool)
    requires Inv(Save(s, row, Completes).0)
    ensures var (s', reply) := Save(s, row, Completes); reply.Ok? ==> Inv(Notify(s', notify))
  {
    var (s', reply) := Save(s, row, Completes);
    if reply.Ok? {
      assert RowId(s'.nextRow - 1) in s'.rows;
      SameRowsSameInv(s', Notify(s', notify));
    }
  }

  lemma SameRowsSameInv(s: State, s': State)
    requires Inv(s) && s'.rows == s.rows && s'.olts == s.olts && s'.nextRow == s.nextRow && NotificationsRefer(s')
    ensures Inv(s')
  {
    forall port ensures s'.On(port) == s.On(port) {}
  }

  /** Re-provisioning a serial the database has lost, with a truthful read, gives it its old ID, whatever the
      authorization exchange would have done, and touches no registration. */
  lemma OrphanKeepsItsId(
    s: State, port: PonPort, e: Entry, customer: string, onuType: string, x: Exchange)
    requires Inv(s) && e in s.On(port) && !SerialInDb(s, e.serial)
    ensures
      var (s', reply) := ProvisionOnu(s, port, e.serial, customer, onuType, Shows(s.On(port)), x, Completes);
      && reply == Ok(e.id) && s'.olts == s.olts
      && s'.rows == s.rows[RowId(s.nextRow) := Row(port, e.id, e.serial, customer)]
  {
    var listing := s.On(port);
    IdBySerialFinds(listing, e.serial);
    var k := IdBySerial(listing, e.serial).value;
    var f :| f in listing && f.id == k && f.serial == e.serial;
    SameIdSameEntry(listing, e, f);
    OrphanMeansInsertable(s, port, e);
  }

  /** The BSS flow has no such reuse: an orphaned serial is always refused by the OLT. */
  lemma BssNeverAdoptsOrphan(
    s: State, port: PonPort, e: Entry, customer: string, onuType: string, read: ReadOut, x: Exchange, rest: Rest,
    notify: bool)
    requires e in s.On(port)
    ensures
      var (s', reply) := BssProvision(s, port, e.serial, customer, onuType, read, x, rest, notify);
      s' == s && !reply.Ok?
  {
    assert forall id :: !Registrable(s.On(port), id, e.serial);
  }

  // ----------------------------------------------------------- the ID that is chosen

  lemma DbIdsAreTaken(s: State, port: PonPort, k: nat)
    ensures k in DbIds(s, port) <==> DbTaken(s, port, k)
  {
  }

  /** On every fresh-ID path the ID is in 1..128 and free in the database. */
  lemma FreshIdIsFree(s: State, port: PonPort, serial: string, read: ReadOut, k: nat)
    requires ChooseId(s, port, serial, read) == Fresh(k)
    ensures 1 <= k <= MAX_ID && !DbTaken(s, port, k)
  {
    LeastFreeIsLeast(DbIds(s, port), k);
    DbIdsAreTaken(s, port, k);
    if read.Shows? {
      LeastFreeIsLeast(IdsOf(read.listing), k);
    }
  }

  /** "No IDs" means that the store consulted is full: the listing, or the database when the read raised or the
      listing's choice is taken there. */
  lemma NoIdsMeansFull(s: State, port: PonPort, serial: string, read: ReadOut)
    requires ChooseId(s, port, serial, read) == Full
    ensures
      || (read.Shows? && forall j :: 1 <= j <= MAX_ID ==> j in IdsOf(read.listing))
      || forall j :: 1 <= j <= MAX_ID ==> DbTaken(s, port, j)
  {
    LeastFreeIsLeast(DbIds(s, port), 0);
    forall j ensures j in DbIds(s, port) <==> DbTaken(s, port, j) { DbIdsAreTaken(s, port, j); }
    if read.Shows? {
      LeastFreeIsLeast(IdsOf(read.listing), 0);
    }
  }

  // ------------------------------------------------------------------- removal

  lemma {:induction false} WithoutKeepsOthers(listing: seq<Entry>, id: nat, e: Entry)
    ensures e in Without(listing, id) <==> e in listing && e.id != id
    decreases |listing|
  {
    if listing != [] {
      WithoutKeepsOthers(listing[1..], id, e);
    }
  }

  lemma {:induction false} WithoutKeepsNoClash(listing: seq<Entry>, id: nat)
    requires NoClash(listing)
    ensures NoClash(Without(listing, id))
    decreases |listing|
  {
    if listing != [] {
      var rest := listing[1..];
      assert forall i :: 0 <= i < |rest| ==> rest[i] == listing[i + 1];
      WithoutKeepsNoClash(rest, id);
      forall j | 0 <= j < |Without(rest, id)| ensures !Clash(listing[0], Without(rest, id)[j]) {
        WithoutKeepsOthers(rest, id, Without(rest, id)[j]);
        var k :| 0 <= k < |rest| && rest[k] == Without(rest, id)[j];
        assert !Clash(listing[0], listing[k + 1]);
      }
    }
  }

  lemma DeregisterEffect(s: State, port: PonPort, id: nat, x: Exchange, p: PonPort, e: Entry)
    ensures e in Deregister(s, port, id, x).On(p) <==>
      e in s.On(p) && (x.LostBefore? || p != port || e.id != id)
  {
    if !x.LostBefore? && p == port {
      WithoutKeepsOthers(s.On(port), id, e);
    }
  }

  /** After the registration of a row's location is gone, the other rows are still registered. */
  lemma DeregisterKeepsOthers(s: State, r: RowId, x: Exchange, q: RowId)
    requires Inv(s) && r in s.rows && q in s.rows && q != r
    ensures
      var s' := Deregister(s, s.rows[r].port, s.rows[r].onuId, x);
      Listed(s'.On(s.rows[q].port), s.rows[q].onuId, s.rows[q].serial)
  {
    var row, other := s.rows[r], s.rows[q];
    assert Listed(s.On(other.port), other.onuId, other.serial);
    var e :| e in s.On(other.port) && e.id == other.onuId && e.serial == other.serial;
    DeregisterEffect(s, row.port, row.onuId, x, other.port, e);
  }

  lemma DeregisterKeepsPorts(s: State, r: RowId, x: Exchange)
    requires PortsConsistent(s) && r in s.rows
    ensures PortsConsistent(Deregister(s, s.rows[r].port, s.rows[r].onuId, x))
  {
    if !x.LostBefore? {
      WithoutKeepsNoClash(s.On(s.rows[r].port), s.rows[r].onuId);
    }
  }

  lemma DeregisteredIsGone(s: State, r: RowId, x: Exchange)
    requires r in s.rows && !x.LostBefore?
    ensures
      var s' := Deregister(s, s.rows[r].port, s.rows[r].onuId, x);
      !Listed(s'.On(s.rows[r].port), s.rows[r].onuId, s.rows[r].serial)
  {
    var row := s.rows[r];
    forall e | e in Deregister(s, row.port, row.onuId, x).On(row.port) ensures e.id != row.onuId {
      DeregisterEffect(s, row.port, row.onuId, x, row.port, e);
    }
  }

  /** A removal keeps the invariant if and only if the device never acted, or the row is deleted too: the exchange
      was answered or the removal forced, no notification refers to the row, and the delete did not fail. */
  lemma RemoveKeepsInvIff(s: State, r: RowId, x: Exchange, force: bool, write: Rest)
    requires Inv(s) && r in s.rows
    ensures Inv(RemoveOnu(s, r, x, force, write).0)
       <==> x.LostBefore? || ((x.Answered? || force) && write.Completes? && r !in s.notified)
  {
    var (s', ok) := RemoveOnu(s, r, x, force, write);
    DeregisterKeepsPorts(s, r, x);
    if ok {
      forall q | q in s'.rows ensures Listed(s'.On(s'.rows[q].port), s'.rows[q].onuId, s'.rows[q].serial) {
        DeregisterKeepsOthers(s, r, x, q);
      }
    } else if x.LostBefore? {
      assert s' == s;
    } else {
      DeregisteredIsGone(s, r, x);
      assert !Listed(s'.On(s'.rows[r].port), s'.rows[r].onuId, s'.rows[r].serial);
    }
  }

  /** An ONU whose customer was notified when the BSS flow provisioned it cannot be removed: whenever the device acts
      it drops the registration, and then the row stays, forced or not: the foreign key refuses the delete. */
  lemma NotifiedOutlivesItsRegistration(
    s: State, port: PonPort, serial: string, customer: string, onuType: string, read: ReadOut,
    x: Exchange, force: bool, write: Rest)
    requires Inv(s) && !x.LostBefore?
    requires BssProvision(s, port, serial, customer, onuType, read, Answered, Completes, true).1.Ok?
    ensures
      var s1 := BssProvision(s, port, serial, customer, onuType, read, Answered, Completes, true).0;
      var r := RowId(s.nextRow);
      r in s1.rows &&
      var (s2, ok) := RemoveOnu(s1, r, x, force, write);
      && !ok && r in s2.rows && !Listed(s2.On(port), s2.rows[r].onuId, serial) && !Inv(s2)
  {
    var s1 := BssProvision(s, port, serial, customer, onuType, read, Answered, Completes, true).0;
    var r := RowId(s.nextRow);
    BssProvisionKeepsInv(s, port, serial, customer, onuType, read, Answered, Completes, true);
    NotifiedRow(s, port, serial, customer, onuType, read);
    RemoveKeepsInvIff(s1, r, x, force, write);
    DeregisteredIsGone(s1, r, x);
  }

  lemma NotifiedRow(s: State, port: PonPort, serial: string, customer: string, onuType: string, read: ReadOut)
    requires BssProvision(s, port, serial, customer, onuType, read, Answered, Completes, true).1.Ok?
    ensures
      var s1 := BssProvision(s, port, serial, customer, onuType, read, Answered, Completes, true).0;
      var r := RowId(s.nextRow);
      r in s1.rows && r in s1.notified && s1.rows[r].port == port && s1.rows[r].serial == serial
  {
  }

  /** Such an input: the first ONU of an empty port, with a phone number to notify. */
  lemma NotifiedExample(port: PonPort)
    ensures
      var (s, reply) := BssProvision(
        State(map[], map[], 0, {}), port, "ZTEG1", "C1", "F660", Shows([]), Answered, Completes, true);
      reply == Ok(1) && Inv(s) && RowId(0) in s.rows && !Inv(RemoveOnu(s, RowId(0), Answered, true, Completes).0)
  {
    var empty := State(map[], map[], 0, {});
    StartsConsistent(map[]);
    LeastFreeIsLeast(IdsOf([]), 1);
    BssProvisionKeepsInv(empty, port, "ZTEG1", "C1", "F660", Shows([]), Answered, Completes, true);
    NotifiedOutlivesItsRegistration(empty, port, "ZTEG1", "C1", "F660", Shows([]), Answered, true, Completes);
  }

  // ------------------------------------------------------------- deprovisioning

  predicate AllDistinct(rs: seq<RowId>) {
    forall i, j :: 0 <= i < j < |rs| ==> rs[i] != rs[j]
  }

  predicate AllRows(s: State, rs: seq<RowId>) {
    forall i :: 0 <= i < |rs| ==> rs[i] in s.rows
  }

  /** Every exchange is answered and every delete goes through. */
  predicate AllGo(s: State, rs: seq<RowId>, ms: seq<Removal>) {
    |ms| == |rs| && forall i :: 0 <= i < |rs| ==> ms[i].x.Answered? && Deletable(s, rs[i], ms[i].write)
  }

  lemma AllGoStep(s: State, s1: State, rs: seq<RowId>, ms: seq<Removal>)
    requires rs != [] && |ms| == |rs| && s1.notified == s.notified
    ensures AllGo(s, rs, ms) <==> ms[0].x.Answered? && Deletable(s, rs[0], ms[0].write) && AllGo(s1, rs[1..], ms[1..])
  {
    if AllGo(s1, rs[1..], ms[1..]) && ms[0].x.Answered? && Deletable(s, rs[0], ms[0].write) {
      forall i | 0 <= i < |rs| ensures ms[i].x.Answered? && Deletable(s, rs[i], ms[i].write) {
        if i > 0 { assert rs[1..][i - 1] == rs[i] && ms[1..][i - 1] == ms[i]; }
      }
    }
  }

  lemma {:induction false} RemoveEachOutcome(s: State, rs: seq<RowId>, ms: seq<Removal>)
    requires |ms| == |rs| && AllRows(s, rs) && AllDistinct(rs)
    ensures RemoveEach(s, rs, ms).1 <==> AllGo(s, rs, ms)
    decreases |rs|
  {
    if rs != [] {
      var (s1, ok) := RemoveOnu(s, rs[0], ms[0].x, false, ms[0].write);
      AllGoStep(s, s1, rs, ms);
      if ok { RemoveEachOutcome(s1, rs[1..], ms[1..]); }
    }
  }

  /** Removals add no registration, and change nothing else but rows. */
  lemma {:induction false} RemoveEachShrinks(s: State, rs: seq<RowId>, ms: seq<Removal>, port: PonPort, e: Entry)
    requires |ms| == |rs| && AllRows(s, rs) && AllDistinct(rs)
    ensures e in RemoveEach(s, rs, ms).0.On(port) ==> e in s.On(port)
    decreases |rs|
  {
    if rs != [] {
      var row := s.rows[rs[0]];
      var (s1, ok) := RemoveOnu(s, rs[0], ms[0].x, false, ms[0].write);
      DeregisterEffect(s, row.port, row.onuId, ms[0].x, port, e);
      assert s1.On(port) == Deregister(s, row.port, row.onuId, ms[0].x).On(port);
      if ok { RemoveEachShrinks(s1, rs[1..], ms[1..], port, e); }
    }
  }

  lemma {:induction false} RemoveEachKeepsInv(s: State, rs: seq<RowId>, ms: seq<Removal>)
    requires |ms| == |rs| && AllRows(s, rs) && AllDistinct(rs)
    requires Inv(s) && AllGo(s, rs, ms)
    ensures Inv(RemoveEach(s, rs, ms).0)
    decreases |rs|
  {
    if rs != [] {
      var s1 := RemoveOnu(s, rs[0], ms[0].x, false, ms[0].write).0;
      RemoveKeepsInvIff(s, rs[0], ms[0].x, false, ms[0].write);
      AllGoStep(s, s1, rs, ms);
      RemoveEachKeepsInv(s1, rs[1..], ms[1..]);
    }
  }

  /** Deprovisioning a customer keeps the invariant if and only if every removal goes through and the commit too,
      or the device never acted on the very first one: a later failure restores rows whose registrations are gone. */
  lemma DeprovisionKeepsInvIff(s: State, rs: seq<RowId>, ms: seq<Removal>, commit: Rest)
    requires Inv(s) && rs != [] && |ms| == |rs| && AllRows(s, rs) && AllDistinct(rs)
    ensures Inv(Deprovision(s, rs, ms, commit).0) <==> (AllGo(s, rs, ms) && commit.Completes?) || ms[0].x.LostBefore?
  {
    var s' := Deprovision(s, rs, ms, commit).0;
    RemoveEachOutcome(s, rs, ms);
    if AllGo(s, rs, ms) && commit.Completes? {
      RemoveEachKeepsInv(s, rs, ms);
    } else if ms[0].x.LostBefore? {
      assert s' == s;
    } else {
      var row := s.rows[rs[0]];
      forall e | e in s'.On(row.port) ensures !(e.id == row.onuId && e.serial == row.serial) {
        GoneStaysGone(s, rs, ms, e);
      }
      assert !Listed(s'.On(s'.rows[rs[0]].port), s'.rows[rs[0]].onuId, s'.rows[rs[0]].serial);
    }
  }

  /** Such an input: a customer with two ONUs on a port, and an exchange lost before the device acts on the second. */
  lemma DeprovisionExample(port: PonPort)
    ensures
      var s, rs := TwoOnus(port, "A", "B"), [RowId(0), RowId(1)];
      var ms := [Removal(Answered, Completes), Removal(LostBefore, Completes)];
      && Inv(s) && AllRows(s, rs) && AllDistinct(rs)
      && !Inv(Deprovision(s, rs, ms, Completes).0)
  {
    var s, rs := TwoOnus(port, "A", "B"), [RowId(0), RowId(1)];
    var ms := [Removal(Answered, Completes), Removal(LostBefore, Completes)];
    TwoOnusFit(port, "A", "B");
    assert !ms[1].x.Answered?;
    DeprovisionKeepsInvIff(s, rs, ms, Completes);
  }

  function TwoOnus(port: PonPort, a: string, b: string): State {
    State(
      map[RowId(0) := Row(port, 1, a, "C"), RowId(1) := Row(port, 2, b, "C")],
      map[port := [Entry(1, "F660", a), Entry(2, "F660", b)]], 2, {})
  }

  lemma TwoOnusFit(port: PonPort, a: string, b: string)
    requires a != b
    ensures Inv(TwoOnus(port, a, b))
  {
    TwoOnusRegistered(port, a, b);
    TwoEntriesFit(Entry(1, "F660", a), Entry(2, "F660", b));
  }

  lemma TwoEntriesFit(e: Entry, f: Entry)
    requires !Clash(e, f)
    ensures NoClash([e, f])
  {
  }

  lemma TwoOnusRegistered(port: PonPort, a: string, b: string)
    ensures RowsRegistered(TwoOnus(port, a, b))
  {
    var s := TwoOnus(port, a, b);
    var listing := [Entry(1, "F660", a), Entry(2, "F660", b)];
    assert s.On(port) == listing;
    assert listing[0] in listing && listing[1] in listing;
  }

  lemma GoneStaysGone(s: State, rs: seq<RowId>, ms: seq<Removal>, e: Entry)
    requires rs != [] && |ms| == |rs| && AllRows(s, rs) && AllDistinct(rs)
    requires !ms[0].x.LostBefore?
    requires e in RemoveEach(s, rs, ms).0.On(s.rows[rs[0]].port)
    ensures e.id != s.rows[rs[0]].onuId
  {
    var row := s.rows[rs[0]];
    var (s1, ok) := RemoveOnu(s, rs[0], ms[0].x, false, ms[0].write);
    assert s1.On(row.port) == Deregister(s, row.port, row.onuId, ms[0].x).On(row.port);
    if ok { RemoveEachShrinks(s1, rs[1..], ms[1..], row.port, e); }
    DeregisterEffect(s, row.port, row.onuId, ms[0].x, row.port, e);
  }

  // ---------------------------------------------------------------------- runs

  datatype Op =
    | Provision(port: PonPort, serial: string, customer: string, onuType: string, read: ReadOut, x: Exchange, rest: Rest)
    | Bss(port: PonPort, serial: string, customer: string, onuType: string, read: ReadOut, x: Exchange, rest: Rest,
          notify: bool)
    | Remove(row: RowId, x: Exchange, force: bool, write: Rest)
    | DeprovisionCustomer(customer: string, rs: seq<RowId>, ms: seq<Removal>, commit: Rest)

  /** The customer's rows, in the order in which the query gives them. */
  predicate IsCustomersRows(s: State, customer: string, rs: seq<RowId>) {
    && AllDistinct(rs) && AllRows(s, rs)
    && forall r :: r in s.rows ==> (s.rows[r].customer == customer <==> r in rs)
  }

  /** Reads are credible, and no removal is cut off between the device and the database. */
  ghost predicate Admissible(s: State, op: Op) {
    match op
    case Provision(port, _, _, _, read, _, _) => Credible(s, port, read)
    case Bss(_, _, _, _, _, _, _, _) => true
    case Remove(r, x, force, write) => x.LostBefore? || ((x.Answered? || force) && Deletable(s, r, write))
    case DeprovisionCustomer(_, rs, ms, commit) =>
      rs == [] || (AllGo(s, rs, ms) && commit.Completes?) || (ms != [] && ms[0].x.LostBefore?)
  }

  function Apply(s: State, op: Op): (State, Reply) {
    match op
    case Provision(port, serial, customer, onuType, read, x, rest) =>
      ProvisionOnu(s, port, serial, customer, onuType, read, x, rest)
    case Bss(port, serial, customer, onuType, read, x, rest, notify) =>
      BssProvision(s, port, serial, customer, onuType, read, x, rest, notify)
    case Remove(r, x, force, write) =>
      if r !in s.rows then (s, DeviceError)
      else
        var (s', ok) := RemoveOnu(s, r, x, force, write);
        (s', if ok then Ok(0) else DeviceError)
    case DeprovisionCustomer(customer, rs, ms, commit) =>
      if rs == [] || |ms| != |rs| || !IsCustomersRows(s, customer, rs) then (s, DeviceError)
      else
        var (s', ok) := Deprovision(s, rs, ms, commit);
        (s', if ok then Ok(0) else DeviceError)
  }

  /** States and replies of a run. */
  function Trace(s: State, ops: seq<Op>): (t: seq<(State, Reply)>)
    ensures |t| == |ops|
    decreases |ops|
  {
    if ops == [] then []
    else
      var step := Apply(s, ops[0]);
      [step] + Trace(step.0, ops[1..])
  }

  ghost predicate AllAdmissible(s: State, ops: seq<Op>)
    decreases |ops|
  {
    ops == [] || (Admissible(s, ops[0]) && AllAdmissible(Apply(s, ops[0]).0, ops[1..]))
  }

  lemma ApplyKeepsInv(s: State, op: Op)
    requires Inv(s) && Admissible(s, op)
    ensures Inv(Apply(s, op).0) && Apply(s, op).1 != IntegrityError
  {
    match op
    case Provision(port, serial, customer, onuType, read, x, rest) =>
      ProvisionKeepsInv(s, port, serial, customer, onuType, read, x, rest);
    case Bss(port, serial, customer, onuType, read, x, rest, notify) =>
      BssProvisionKeepsInv(s, port, serial, customer, onuType, read, x, rest, notify);
    case Remove(r, x, force, write) =>
      if r in s.rows { RemoveKeepsInvIff(s, r, x, force, write); }
    case DeprovisionCustomer(customer, rs, ms, commit) =>
      if rs != [] && |ms| == |rs| && IsCustomersRows(s, customer, rs) {
        DeprovisionKeepsInvIff(s, rs, ms, commit);
      }
  }

  /** The condition on removals is exact: an operation on existing rows keeps the invariant only when it meets it. */
  lemma RemovalsAdmissibleIff(s: State, op: Op)
    requires Inv(s)
    requires match op
      case Remove(r, _, _, _) => r in s.rows
      case DeprovisionCustomer(customer, rs, ms, _) => rs != [] && |ms| == |rs| && IsCustomersRows(s, customer, rs)
      case _ => false
    ensures Inv(Apply(s, op).0) <==> Admissible(s, op)
  {
    if op.Remove? {
      RemoveKeepsInvIff(s, op.row, op.x, op.force, op.write);
    } else {
      DeprovisionKeepsInvIff(s, op.rs, op.ms, op.commit);
    }
  }

  /** After every operation of every run each row is registered, no two rows share a location or a serial, and no
      unique constraint has fired. */
  lemma {:induction false} RunsStayConsistent(s: State, ops: seq<Op>, k: nat)
    requires Inv(s) && AllAdmissible(s, ops) && k < |ops|
    ensures Inv(Trace(s, ops)[k].0) && Trace(s, ops)[k].1 != IntegrityError
    decreases |ops|
  {
    ApplyKeepsInv(s, ops[0]);
    if k > 0 {
      RunsStayConsistent(Apply(s, ops[0]).0, ops[1..], k - 1);
    }
  }

  /** Every deployment starts like this: no rows, and whatever is on the OLTs already. */
  lemma StartsConsistent(olts: map<PonPort, seq<Entry>>)
    requires forall port :: port in olts ==> NoClash(olts[port])
    ensures Inv(State(map[], olts, 0, {}))
  {
  }
}
