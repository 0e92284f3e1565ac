/**
 Registering ONUs: the database rows and the OLT's own registrations, updated in
 separate steps that can fail one by one. The specification functions give, for
 every outcome of the device, the new state and the reply; class `Provisioner`
 performs the steps.
 */
module Registration {
  import opened Options

  datatype PonPort = PonPort(olt: nat, frame: nat, slot: nat, port: nat)

  datatype RowId = RowId(n: nat)

  /** A database row: where the ONU is, and whose it is. */
  datatype Row = Row(port: PonPort, onuId: nat, serial: string, customer: string)

  /** A registration on the OLT, as listed in the port's running configuration. */
  datatype Entry = Entry(id: nat, onuType: string, serial: string)

  /** `notified` are the rows that notification rows refer to; nothing deletes a notification. */
  datatype State = State(rows: map<RowId, Row>, olts: map<PonPort, seq<Entry>>, nextRow: nat, notified: set<RowId>)
  {
    function On(port: PonPort): seq<Entry> {
      if port in olts then olts[port] else []
    }
  }

  // ------------------------------------------------------------- environment

  /** The running-configuration read: the listing it shows, or an exception. */
  datatype ReadOut = Shows(listing: seq<Entry>) | ReadRaises

  /** A device exchange: answered, or lost before or after the device acted on it. */
  datatype Exchange = Answered | LostBefore | LostAfter

  /** Everything after authorization either completes or raises and rolls the transaction back. */
  datatype Rest = Completes | RaisesLater

  datatype Reply = Ok(id: nat) | DuplicateSerial | DuplicateCustomer | NoFreeId | DeviceError | LaterError | IntegrityError

  // ------------------------------------------------------------ ID allocation

  const MAX_ID := 128

  function IdsOf(listing: seq<Entry>): set<nat> {
    set e | e in listing :: e.id
  }

  function LeastFreeFrom(used: set<nat>, i: nat): Option<nat>
    decreases MAX_ID + 1 - i
  {
    if i > MAX_ID then None else if i !in used then Some(i) else LeastFreeFrom(used, i + 1)
  }

  function LeastFree(used: set<nat>): Option<nat> {
    LeastFreeFrom(used, 1)
  }

  lemma {:induction false} LeastFreeFromIsLeast(used: set<nat>, i: nat)
    ensures
      match LeastFreeFrom(used, i)
      case Some(k) => i <= k <= MAX_ID && k !in used && forall j :: i <= j < k ==> j in used
      case None => forall j :: i <= j <= MAX_ID ==> j in used
    decreases MAX_ID + 1 - i
  {
    if i <= MAX_ID && i in used { LeastFreeFromIsLeast(used, i + 1); }
  }

  /** The least ID of 1..128 that is not used, and none exactly when all 128 are used. */
  lemma LeastFreeIsLeast(used: set<nat>, k: nat)
    ensures LeastFree(used) == Some(k) <==> 1 <= k <= MAX_ID && k !in used && forall j :: 1 <= j < k ==> j in used
    ensures LeastFree(used) == None <==> forall j :: 1 <= j <= MAX_ID ==> j in used
  {
    LeastFreeFromIsLeast(used, 1);
  }

  /** First listed ID with this serial. */
  function IdBySerial(listing: seq<Entry>, serial: string): Option<nat>
    decreases |listing|
  {
    if listing == [] then None
    else if listing[0].serial == serial then Some(listing[0].id)
    else IdBySerial(listing[1..], serial)
  }

  lemma {:induction false} IdBySerialFinds(listing: seq<Entry>, serial: string)
    ensures
      match IdBySerial(listing, serial)
      case Some(k) => exists e :: e in listing && e.id == k && e.serial == serial
      case None => forall e :: e in listing ==> e.serial != serial
    decreases |listing|
  {
    if listing != [] {
      if listing[0].serial == serial {
        assert listing[0] in listing;
      } else {
        IdBySerialFinds(listing[1..], serial);
      }
    }
  }

  predicate DbTaken(s: State, port: PonPort, id: nat) {
    exists r :: r in s.rows && s.rows[r].port == port && s.rows[r].onuId == id
  }

  function DbIds(s: State, port: PonPort): set<nat> {
    set r | r in s.rows && s.rows[r].port == port :: s.rows[r].onuId
  }

  predicate SerialInDb(s: State, serial: string) {
    exists r :: r in s.rows && s.rows[r].serial == serial
  }

  predicate CustomerInDb(s: State, customer: string) {
    exists r :: r in s.rows && s.rows[r].customer == customer
  }

  /** The ID to use, and whether it belongs to a registration that is already there. */
  datatype Choice = Fresh(id: nat) | Reuse(id: nat) | Full

  function FreshFromDb(s: State, port: PonPort): Choice {
    var k := LeastFree(DbIds(s, port));
    if k.None? then Full else Fresh(k.value)
  }

  function ChooseId(s: State, port: PonPort, serial: string, read: ReadOut): Choice {
    match read
    case ReadRaises => FreshFromDb(s, port)
    case Shows(listing) =>
      var known := IdBySerial(listing, serial);
      if known.Some? then Reuse(known.value)
      else
        var k := LeastFree(IdsOf(listing));
        if k.None? then Full
        else if DbTaken(s, port, k.value) then FreshFromDb(s, port)
        else Fresh(k.value)
  }

  // ------------------------------------------------------------------ device

  /** The OLT refuses a registration whose ID or serial is taken on the port. */
  predicate Registrable(listing: seq<Entry>, id: nat, serial: string) {
    forall e :: e in listing ==> e.id != id && e.serial != serial
  }

  function Register(s: State, port: PonPort, e: Entry): State {
    s.(olts := s.olts[port := s.On(port) + [e]])
  }

  predicate AuthorizeOk(s: State, port: PonPort, e: Entry, x: Exchange) {
    x.Answered? && Registrable(s.On(port), e.id, e.serial)
  }

  function Authorize(s: State, port: PonPort, e: Entry, x: Exchange): State {
    if !x.LostBefore? && Registrable(s.On(port), e.id, e.serial) then Register(s, port, e) else s
  }

  function Without(listing: seq<Entry>, id: nat): seq<Entry>
    decreases |listing|
  {
    if listing == [] then []
    else (if listing[0].id == id then [] else [listing[0]]) + Without(listing[1..], id)
  }

  function Deregister(s: State, port: PonPort, id: nat, x: Exchange): State {
    if x.LostBefore? then s else s.(olts := s.olts[port := Without(s.On(port), id)])
  }

  // -------------------------------------------------------------- operations

  /** The insert the unique constraints allow. */
  predicate Insertable(s: State, row: Row) {
    !SerialInDb(s, row.serial) && !DbTaken(s, row.port, row.onuId)
  }

  function Save(s: State, row: Row, rest: Rest): (State, Reply) {
    if rest.RaisesLater? then (s, LaterError)
    else if !Insertable(s, row) then (s, IntegrityError)
    else (s.(rows := s.rows[RowId(s.nextRow) := row], nextRow := s.nextRow + 1), Ok(row.onuId))
  }

  function ProvisionOnu(
    s: State, port: PonPort, serial: string, customer: string, onuType: string,
    read: ReadOut, x: Exchange, rest: Rest): (State, Reply)
  {
    if SerialInDb(s, serial) then (s, DuplicateSerial)
    else
      var choice := ChooseId(s, port, serial, read);
      match choice
      case Full => (s, NoFreeId)
      case Reuse(k) => Save(s, Row(port, k, serial, customer), rest)
      case Fresh(k) =>
        var s' := Authorize(s, port, Entry(k, onuType, serial), x);
        if AuthorizeOk(s, port, Entry(k, onuType, serial), x)
        then Save(s', Row(port, k, serial, customer), rest)
        else (s', DeviceError)
  }

  /** The customer is told by e-mail or phone, which leaves a row that refers to the ONU. */
  function Notify(s: State, notify: bool): State
    requires s.nextRow > 0
  {
    if notify then s.(notified := s.notified + {RowId(s.nextRow - 1)}) else s
  }

  /** The BSS flow takes the next ID the listing leaves free, or 1, and always authorizes. */
  function BssProvision(
    s: State, port: PonPort, serial: string, customer: string, onuType: string,
    read: ReadOut, x: Exchange, rest: Rest, notify: bool): (State, Reply)
  {
    if SerialInDb(s, serial) then (s, DuplicateSerial)
    else if CustomerInDb(s, customer) then (s, DuplicateCustomer)
    else
      var next := if read.ReadRaises? then Some(1) else LeastFree(IdsOf(read.listing));
      if next.None? then (s, NoFreeId)
      else
        var e := Entry(next.value, onuType, serial);
        var s' := Authorize(s, port, e, x);
        if !AuthorizeOk(s, port, e, x) then (s', DeviceError)
        else
          var (s'', reply) := Save(s', Row(port, e.id, serial, customer), rest);
          (if reply.Ok? then Notify(s'', notify) else s'', reply)
  }

  /** Deleting a row fails when a notification refers to it, or when the database fails for reasons of its own. */
  predicate Deletable(s: State, r: RowId, write: Rest) {
    write.Completes? && r !in s.notified
  }

  /** Removal keeps the row when the device reported no success, unless forced, and when the delete fails. */
  function RemoveOnu(s: State, r: RowId, x: Exchange, force: bool, write: Rest): (State, bool)
    requires r in s.rows
  {
    var row := s.rows[r];
    var s' := Deregister(s, row.port, row.onuId, x);
    if (x.Answered? || force) && Deletable(s, r, write) then (s'.(rows := s'.rows - {r}), true) else (s', false)
  }

  /** What happens to one removal of several: the device exchange and the delete. */
  datatype Removal = Removal(x: Exchange, write: Rest)

  /** Remove ONUs one after another, up to the first failure. */
  function RemoveEach(s: State, rs: seq<RowId>, ms: seq<Removal>): (State, bool)
    requires |ms| == |rs| && forall i :: 0 <= i < |rs| ==> rs[i] in s.rows
    requires forall i, j :: 0 <= i < j < |rs| ==> rs[i] != rs[j]
    decreases |rs|
  {
    if rs == [] then (s, true)
    else
      var (s1, ok) := RemoveOnu(s, rs[0], ms[0].x, false, ms[0].write);
      if ok then RemoveEach(s1, rs[1..], ms[1..]) else (s1, false)
  }

  /** Remove a customer's ONUs. A failure, of the commit too, aborts the request, and the rollback brings back
      every row deleted before it, though not the registrations. */
  function Deprovision(s: State, rs: seq<RowId>, ms: seq<Removal>, commit: Rest): (State, bool)
    requires |ms| == |rs| && forall i :: 0 <= i < |rs| ==> rs[i] in s.rows
    requires forall i, j :: 0 <= i < j < |rs| ==> rs[i] != rs[j]
  {
    var (s', ok) := RemoveEach(s, rs, ms);
    if ok && commit.Completes? then (s', true) else (s'.(rows := s.rows), false)
  }

  // --------------------------------------------------------------- the steps

  class Provisioner {
    var rows: map<RowId, Row>
    var olts: map<PonPort, seq<Entry>>
    var nextRow: nat
    var notified: set<RowId>

    function Now(): State
      reads this
    {
      State(rows, olts, nextRow, notified)
    }

    constructor (olts: map<PonPort, seq<Entry>>)
      ensures Now() == State(map[], olts, 0, {})
    {
      rows, this.olts, nextRow, notified := map[], olts, 0, {};
    }

    method AuthorizeEntry(port: PonPort, e: Entry, x: Exchange) returns (ok: bool)
      modifies this
      ensures Now() == Authorize(old(Now()), port, e, x)
      ensures ok <==> AuthorizeOk(old(Now()), port, e, x)
      ensures
        var listing := old(Now()).On(port);
        var free := forall f :: f in listing ==> f.id != e.id && f.serial != e.serial;
        && (ok <==> x == Answered && free)
        && olts == if x != LostBefore && free then old(olts)[port := listing + [e]] else old(olts)
      ensures rows == old(rows) && nextRow == old(nextRow) && notified == old(notified)
    {
      if x.LostBefore? {
        return false;
      }
      var listing := Now().On(port);
      if exists taken :: taken in listing && (taken.id == e.id || taken.serial == e.serial) {
        return false;
      }
      olts := olts[port := listing + [e]];
      ok := x.Answered?;
    }

    method SaveRow(row: Row, rest: Rest) returns (reply: Reply)
      modifies this
      ensures (Now(), reply) == Save(old(Now()), row, rest)
      ensures
        var taken := exists r :: (
          && r in old(rows)
          && (old(rows)[r].serial == row.serial || (old(rows)[r].port == row.port && old(rows)[r].onuId == row.onuId)));
        reply == if rest == RaisesLater then LaterError else if taken then IntegrityError else Ok(row.onuId)
      ensures rows == if reply.Ok? then old(rows)[RowId(old(nextRow)) := row] else old(rows)
      ensures nextRow == old(nextRow) + if reply.Ok? then 1 else 0
      ensures olts == old(olts) && notified == old(notified)
    {
      if rest.RaisesLater? {
        return LaterError;
      }
      if SerialInDb(Now(), row.serial) || DbTaken(Now(), row.port, row.onuId) {
        return IntegrityError;
      }
      rows := rows[RowId(nextRow) := row];
      nextRow := nextRow + 1;
      reply := Ok(row.onuId);
    }

    method Provision(port: PonPort, serial: string, customer: string, onuType: string,
                     read: ReadOut, x: Exchange, rest: Rest) returns (reply: Reply)
      modifies this
      ensures (Now(), reply) == ProvisionOnu(old(Now()), port, serial, customer, onuType, read, x, rest)
    {
      if SerialInDb(Now(), serial) {
        return DuplicateSerial;
      }
      var alreadyOnOlt := false;
      var nextId: Option<nat>;
      match read {
        case Shows(listing) =>
          var existing := IdBySerial(listing, serial);
          if existing.Some? {
            nextId := existing;
            alreadyOnOlt := true;
          } else {
            nextId := LeastFree(IdsOf(listing));
            if nextId.None? {
              return NoFreeId;
            }
            if DbTaken(Now(), port, nextId.value) {
              nextId := LeastFree(DbIds(Now(), port));
              if nextId.None? {
                return NoFreeId;
              }
            }
          }
        case ReadRaises =>
          nextId := LeastFree(DbIds(Now(), port));
          if nextId.None? {
            return NoFreeId;
          }
      }
      if !alreadyOnOlt {
        var ok := AuthorizeEntry(port, Entry(nextId.value, onuType, serial), x);
        if !ok {
          return DeviceError;
        }
      }
      reply := SaveRow(Row(port, nextId.value, serial, customer), rest);
    }

    method ProvisionBss(port: PonPort, serial: string, customer: string, onuType: string,
                        read: ReadOut, x: Exchange, rest: Rest, notify: bool) returns (reply: Reply)
      modifies this
      ensures (Now(), reply) == BssProvision(old(Now()), port, serial, customer, onuType, read, x, rest, notify)
    {
      if SerialInDb(Now(), serial) {
        return DuplicateSerial;
      }
      if CustomerInDb(Now(), customer) {
        return DuplicateCustomer;
      }
      var nextId := 1;
      if read.Shows? {
        var free := LeastFree(IdsOf(read.listing));
        if free.None? {
          return NoFreeId;
        }
        nextId := free.value;
      }
      var ok := AuthorizeEntry(port, Entry(nextId, onuType, serial), x);
      if !ok {
        return DeviceError;
      }
      var id := RowId(nextRow);
      reply := SaveRow(Row(port, nextId, serial, customer), rest);
      if reply.Ok? && notify {
        notified := notified + {id};
      }
    }

    method Remove(r: RowId, x: Exchange, force: bool, write: Rest) returns (ok: bool)
      requires r in rows
      modifies this
      ensures (Now(), ok) == RemoveOnu(old(Now()), r, x, force, write)
    {
      var row := rows[r];
      if !x.LostBefore? {
        olts := olts[row.port := Without(Now().On(row.port), row.onuId)];
      }
      var oltError := !x.Answered?;
      if oltError && !force {
        return false;
      }
      if r in notified || write.RaisesLater? {
        // the foreign key, or the database itself, refuses the delete
        return false;
      }
      rows := rows - {r};
      ok := true;
    }

    method DeprovisionAll(rs: seq<RowId>, ms: seq<Removal>, commit: Rest) returns (ok: bool)
      requires |ms| == |rs| && forall i :: 0 <= i < |rs| ==> rs[i] in rows
      requires forall i, j :: 0 <= i < j < |rs| ==> rs[i] != rs[j]
      modifies this
      ensures (Now(), ok) == Deprovision(old(Now()), rs, ms, commit)
    {
      var savepoint := rows;
      assert rs[0..] == rs && ms[0..] == ms;
      for i := 0 to |rs|
        invariant forall j :: i <= j < |rs| ==> rs[j] in rows
        invariant RemoveEach(old(Now()), rs, ms) == RemoveEach(Now(), rs[i..], ms[i..])
      {
        assert rs[i..][1..] == rs[i + 1..] && ms[i..][1..] == ms[i + 1..];
        var removed := Remove(rs[i], ms[i].x, false, ms[i].write);
        if !removed {
          // the exception rolls the transaction back
          rows := savepoint;
          return false;
        }
      }
      assert rs[|rs|..] == [];
      if commit.RaisesLater? {
        rows := savepoint;
        return false;
      }
      ok := true;
    }
  }
}
