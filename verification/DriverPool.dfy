/**
 The application's pool of OLT connections. The model counts sockets: which are
 open, which of those the pool can still reach, and which nobody refers to.
 */
module DriverPool {

  datatype OltId = OltId(id: int)

  datatype Driver = Driver(socket: nat, connected: bool)

  /** How one connection attempt ends. A login that fails is cleaned up by the client; a task cancelled during
      login is not, because cancellation is not an ordinary exception. An attempt that succeeds may already have
      lost the connection again while turning off pagination, which the client passes over. */
  datatype Attempt = Refused | LoginFailed | Cancelled | Connected(up: bool)

  datatype Fetched = Raised | Got(driver: Driver)

  /** `abandoned` are the open sockets that nothing refers to: the garbage collector finalizes their writers, and
      so closes them, some time later. */
  datatype State = State(drivers: map<OltId, Driver>, opens: nat, closes: nat, live: set<nat>, abandoned: set<nat>)
  {
    ghost function Pooled(): set<nat> { Sockets(drivers) }

    /** Pool entries whose socket is closed already. */
    function Spent(): set<OltId> {
      set olt | olt in drivers && drivers[olt].socket !in live
    }

    /** Every open socket is pooled under exactly one OLT or abandoned, and the ledger adds up. */
    ghost predicate Valid() {
      && abandoned <= live <= Pooled() + abandoned
      && Pooled() !! abandoned
      && OneEach(drivers)
      && (forall s :: s in Pooled() + abandoned ==> s < opens)
      && (forall olt :: olt in drivers && drivers[olt].connected ==> drivers[olt].socket in live)
      && opens == closes + |live|
    }
  }

  ghost function Sockets(drivers: map<OltId, Driver>): set<nat> {
    set olt | olt in drivers :: drivers[olt].socket
  }

  ghost predicate OneEach(drivers: map<OltId, Driver>) {
    forall a, b :: a in drivers && b in drivers && drivers[a].socket == drivers[b].socket ==> a == b
  }

  const EMPTY := State(map[], 0, 0, {}, {})

  // ------------------------------------------------------------ specification

  function Shut(s: State, socket: nat): State {
    if socket in s.live then s.(closes := s.closes + 1, live := s.live - {socket}) else s
  }

  /** A close cancelled while it waits for the transport has closed the socket, but its entry stays in the pool. */
  function Remove(s: State, olt: OltId, cut: bool): State {
    if olt !in s.drivers then s
    else
      var s' := Shut(s, s.drivers[olt].socket);
      if cut then s'.(drivers := s.drivers[olt := s.drivers[olt].(connected := false)])
      else s'.(drivers := s.drivers - {olt})
  }

  function Connect(s: State, attempt: Attempt): State {
    match attempt
    case Refused => s
    case LoginFailed => s.(opens := s.opens + 1, closes := s.closes + 1)
    case Cancelled => s.(opens := s.opens + 1, live := s.live + {s.opens}, abandoned := s.abandoned + {s.opens})
    case Connected(_) => s.(opens := s.opens + 1, live := s.live + {s.opens})
  }

  predicate Reuses(s: State, olt: OltId) {
    olt in s.drivers && s.drivers[olt].connected
  }

  /** A driver that is no longer connected is replaced, unless closing it is cancelled. */
  function Get(s: State, olt: OltId, cut: bool, attempt: Attempt): State {
    if Reuses(s, olt) then s
    else if olt in s.drivers && cut then Remove(s, olt, true)
    else
      var removed := Remove(s, olt, false);
      var s' := Connect(removed, attempt);
      if attempt.Connected? then s'.(drivers := s'.drivers[olt := Driver(removed.opens, attempt.up)]) else s'
  }

  /** A pooled connection is lost. After a failed write or a reset its own transport closes the socket; after a
      plain end of stream it does not. */
  function Drop(s: State, olt: OltId, closes: bool): State {
    if olt !in s.drivers then s
    else
      var s' := if closes then Shut(s, s.drivers[olt].socket) else s;
      s'.(drivers := s.drivers[olt := s.drivers[olt].(connected := false)])
  }

  /** Close the listed entries in turn, up to one whose close is cancelled. */
  function CloseEach(s: State, order: seq<OltId>, cut: nat): State
    decreases |order|
  {
    if order == [] then s
    else if cut == 0 then Remove(s, order[0], true)
    else CloseEach(Remove(s, order[0], false), order[1..], cut - 1)
  }

  /** The pool's keys, each once. */
  predicate IsOrder(order: seq<OltId>, drivers: map<OltId, Driver>) {
    DistinctIn(order, drivers.Keys) && forall olt :: olt in drivers ==> olt in order
  }

  predicate DistinctIn(order: seq<OltId>, keys: set<OltId>) {
    && (forall i, j :: 0 <= i < j < |order| ==> order[i] != order[j])
    && (forall i :: 0 <= i < |order| ==> order[i] in keys)
  }

  /** The garbage collector reaches some of the abandoned sockets. */
  function Collect(s: State, reached: set<nat>): State {
    var n := s.abandoned * reached;
    s.(closes := s.closes + |n|, live := s.live - n, abandoned := s.abandoned - n)
  }

  // ---------------------------------------------------------------- the pool

  class OltDriverPool {
    var drivers: map<OltId, Driver>
    var opens: nat
    var closes: nat
    var live: set<nat>
    var abandoned: set<nat>

    function Now(): State
      reads this
    {
      State(drivers, opens, closes, live, abandoned)
    }

    constructor ()
      ensures Now() == EMPTY
    {
      drivers, opens, closes, live, abandoned := map[], 0, 0, {}, {};
    }

    method GetDriver(olt: OltId, cut: bool, attempt: Attempt) returns (r: Fetched)
      requires Now().Valid()
      modifies this
      ensures Now() == Get(old(Now()), olt, cut, attempt) && Now().Valid()
      ensures
        var tries := !Reuses(old(Now()), olt) && !(olt in old(drivers) && cut);
        && (r.Got? <==> Reuses(old(Now()), olt) || (tries && attempt.Connected?))
        && (r.Got? ==> olt in drivers && r.driver == drivers[olt])
        && (r.Got? && !r.driver.connected ==> tries && !attempt.up)
      ensures olt in old(drivers) && old(drivers)[olt].connected ==> r == Got(old(drivers)[olt])
    {
      GetIsValid(Now(), olt, cut, attempt);
      if olt in drivers {
        var driver := drivers[olt];
        if driver.connected {
          return Got(driver);
        }
        RemoveDriver(olt, cut);
        if cut {
          return Raised;
        }
      }
      r := CreateDriver(attempt);
      if r.Got? {
        drivers := drivers[olt := r.driver];
      }
    }

    method CreateDriver(attempt: Attempt) returns (r: Fetched)
      requires Now().Valid()
      modifies this
      ensures Now() == Connect(old(Now()), attempt)
      ensures r == if attempt.Connected? then Got(Driver(old(opens), attempt.up)) else Raised
    {
      if attempt.Refused? {
        return Raised;
      }
      var socket := opens;
      opens, live := opens + 1, live + {socket};
      match attempt
      case LoginFailed =>
        assert socket !in old(live);
        closes, live := closes + 1, live - {socket};
        return Raised;
      case Cancelled =>
        abandoned := abandoned + {socket};
        return Raised;
      case Connected(up) =>
        return Got(Driver(socket, up));
    }

    /** `cut` when the task is cancelled while the client waits for the transport to close. */
    method RemoveDriver(olt: OltId, cut: bool)
      requires Now().Valid()
      modifies this
      ensures Now() == Remove(old(Now()), olt, cut) && Now().Valid()
      ensures olt !in old(drivers) ==> Now() == old(Now())
      ensures olt in old(drivers) ==>
        && live == old(live) - {old(drivers)[olt].socket} && opens == old(opens) && abandoned == old(abandoned)
        && drivers == if cut then old(drivers)[olt := old(drivers)[olt].(connected := false)] else old(drivers) - {olt}
    {
      RemoveIsValid(Now(), olt, cut);
      if olt in drivers {
        var driver := drivers[olt];
        if driver.socket in live {
          closes := closes + 1;
          live := live - {driver.socket};
        }
        if cut {
          // a writer that is closing no longer counts as connected
          drivers := drivers[olt := driver.(connected := false)];
          return;
        }
        drivers := drivers - {olt};
      }
    }

    method CloseAllDrivers(order: seq<OltId>, cut: nat)
      requires Now().Valid() && IsOrder(order, drivers)
      modifies this
      ensures Now() == CloseEach(old(Now()), order, cut) && Now().Valid()
      ensures cut >= |order| ==> drivers == map[] && live == abandoned == old(abandoned)
      ensures forall k :: 0 <= k < |order| ==> ClosedUpTo(old(Now()), Now(), order, cut, k)
    {
      ghost var s := Now();
      forall k | 0 <= k < |order| ensures ClosedUpTo(s, CloseEach(s, order, cut), order, cut, k) {
        CloseEachEffect(s, order, cut, k);
      }
      assert order[0..] == order;
      for i := 0 to |order|
        invariant Now().Valid() && cut >= i
        invariant CloseEach(Now(), order[i..], cut - i) == CloseEach(s, order, cut)
      {
        CloseEachNext(Now(), order, i, cut);
        RemoveDriver(order[i], cut == i);
        if cut == i {
          return;
        }
      }
      CloseAllLeavesAbandoned(s, order, cut);
    }
  }

  // --------------------------------------------------------------- invariants

  lemma SocketsWithout(m: map<OltId, Driver>, olt: OltId)
    requires OneEach(m) && olt in m
    ensures OneEach(m - {olt}) && Sockets(m - {olt}) == Sockets(m) - {m[olt].socket}
    ensures |m - {olt}| == |m| - 1
  {
    var r := m - {olt};
    forall x | x in Sockets(m) - {m[olt].socket} ensures x in Sockets(r) {
      var k :| k in m && m[k].socket == x;
      assert k in r && r[k].socket == x;
    }
    assert r.Keys == m.Keys - {olt};
    assert |r.Keys| == |m.Keys| - 1;
  }

  lemma SocketsWith(m: map<OltId, Driver>, olt: OltId, d: Driver)
    requires OneEach(m) && olt !in m && d.socket !in Sockets(m)
    ensures OneEach(m[olt := d]) && Sockets(m[olt := d]) == Sockets(m) + {d.socket}
  {
    var r := m[olt := d];
    assert forall k :: k in m ==> m[k].socket in Sockets(m);
    forall x | x in Sockets(m) + {d.socket} ensures x in Sockets(r) {
      if x == d.socket {
        assert olt in r && r[olt].socket == x;
      } else {
        var k :| k in m && m[k].socket == x;
        assert k in r && r[k].socket == x;
      }
    }
  }

  /** Changing the flag of an entry changes no socket. */
  lemma SocketsSame(m: map<OltId, Driver>, olt: OltId)
    requires OneEach(m) && olt in m
    ensures var r := m[olt := m[olt].(connected := false)]; OneEach(r) && Sockets(r) == Sockets(m)
  {
    var r := m[olt := m[olt].(connected := false)];
    forall x | x in Sockets(m) ensures x in Sockets(r) {
      var k :| k in m && m[k].socket == x;
      assert k in r && r[k].socket == x;
    }
  }

  lemma ShutIsValid(s: State, olt: OltId)
    requires s.Valid() && olt in s.drivers
    ensures
      var s' := Shut(s, s.drivers[olt].socket);
      && s'.live == s.live - {s.drivers[olt].socket} && s'.opens == s'.closes + |s'.live|
      && s'.drivers == s.drivers && s'.abandoned == s.abandoned && s'.opens == s.opens
      && s.abandoned <= s'.live
  {
    assert s.drivers[olt].socket in s.Pooled();
  }

  lemma RemoveIsValid(s: State, olt: OltId, cut: bool)
    requires s.Valid()
    ensures Remove(s, olt, cut).Valid()
  {
    if olt in s.drivers {
      var x := s.drivers[olt].socket;
      ShutIsValid(s, olt);
      forall k | k in s.drivers && k != olt ensures s.drivers[k].socket != x {}
      if cut { SocketsSame(s.drivers, olt); } else { SocketsWithout(s.drivers, olt); }
    }
  }

  lemma AttemptIsValid(s: State, attempt: Attempt)
    requires s.Valid() && !attempt.Connected?
    ensures Connect(s, attempt).Valid()
  {
    if attempt.Cancelled? { AbandonedIsValid(s); }
    assert Connect(s, attempt).Pooled() == s.Pooled();
  }

  lemma AddToBoth(live: set<nat>, pooled: set<nat>, abandoned: set<nat>, x: nat)
    requires abandoned <= live <= pooled + abandoned && pooled !! abandoned && x !in pooled && x !in live
    ensures abandoned + {x} <= live + {x} <= pooled + (abandoned + {x}) && pooled !! abandoned + {x}
    ensures |live + {x}| == |live| + 1
  {
  }

  lemma AbandonedIsValid(s: State)
    requires s.Valid()
    ensures Connect(s, Cancelled).Valid()
  {
    BelowOpens(s);
    AddToBoth(s.live, s.Pooled(), s.abandoned, s.opens);
    SameDrivers(s, Connect(s, Cancelled));
  }

  lemma SameDrivers(s: State, s': State)
    requires s.Valid() && s'.drivers == s.drivers && s.live <= s'.live
    ensures s'.Pooled() == s.Pooled() && OneEach(s'.drivers)
    ensures forall olt :: olt in s'.drivers && s'.drivers[olt].connected ==> s'.drivers[olt].socket in s'.live
  {
  }

  lemma PooledConnectionIsValid(s: State, olt: OltId, up: bool)
    requires s.Valid() && olt !in s.drivers
    ensures
      var c := Connect(s, Connected(up));
      c.(drivers := c.drivers[olt := Driver(s.opens, up)]).Valid()
  {
    var d := Driver(s.opens, up);
    BelowOpens(s);
    SocketsWith(s.drivers, olt, d);
    OneMore(s, s.opens);
    ConnectedStayLive(s, olt, d);
  }

  lemma ConnectedStayLive(s: State, olt: OltId, d: Driver)
    requires s.Valid()
    ensures
      var m, live := s.drivers[olt := d], s.live + {d.socket};
      forall k :: k in m && m[k].connected ==> m[k].socket in live
  {
  }

  /** A socket that has not been open before. */
  lemma OneMore(s: State, x: nat)
    requires s.Valid() && x !in s.live && x !in s.Pooled() && x !in s.abandoned
    ensures |s.live + {x}| == |s.live| + 1
    ensures s.abandoned <= s.live + {x} <= (s.Pooled() + {x}) + s.abandoned
    ensures (s.Pooled() + {x}) !! s.abandoned
  {
  }

  lemma BelowOpens(s: State)
    requires s.Valid()
    ensures s.opens !in s.live && s.opens !in s.Pooled() && s.opens !in s.abandoned
  {
  }

  lemma GetIsValid(s: State, olt: OltId, cut: bool, attempt: Attempt)
    requires s.Valid()
    ensures Get(s, olt, cut, attempt).Valid()
  {
    if !Reuses(s, olt) {
      RemoveIsValid(s, olt, true);
      RemoveIsValid(s, olt, false);
      if attempt.Connected? {
        PooledConnectionIsValid(Remove(s, olt, false), olt, attempt.up);
      } else {
        AttemptIsValid(Remove(s, olt, false), attempt);
      }
    }
  }

  /** A connected driver is handed out as it is. */
  lemma GetReuses(s: State, olt: OltId, cut: bool, attempt: Attempt)
    requires olt in s.drivers && s.drivers[olt].connected
    ensures Get(s, olt, cut, attempt) == s
  {
  }

  /** A driver that is not connected is closed and leaves the pool, and one attempt is made to replace it; a cancelled
      close leaves it in the pool, and no attempt is made. */
  lemma GetReplaces(s: State, olt: OltId, cut: bool, attempt: Attempt)
    requires olt in s.drivers ==> !s.drivers[olt].connected
    ensures
      var s' := Get(s, olt, cut, attempt);
      var kept := if olt in s.drivers then s.live - {s.drivers[olt].socket} else s.live;
      if olt in s.drivers && cut then
        s'.drivers == s.drivers && s'.live == kept && s'.opens == s.opens && s'.abandoned == s.abandoned
      else
        && s'.opens == s.opens + (if attempt == Refused then 0 else 1)
        && s'.live == kept + (if attempt == Cancelled || attempt.Connected? then {s.opens} else {})
        && s'.abandoned == s.abandoned + (if attempt == Cancelled then {s.opens} else {})
        && s'.drivers == if attempt.Connected? then s.drivers[olt := Driver(s.opens, attempt.up)] else s.drivers - {olt}
  {
    if olt in s.drivers {
      assert s.drivers[olt := s.drivers[olt].(connected := false)] == s.drivers;
      if attempt.Connected? {
        var d := Driver(s.opens, attempt.up);
        assert (s.drivers - {olt})[olt := d] == s.drivers[olt := d];
      }
    } else {
      assert s.drivers - {olt} == s.drivers;
    }
  }

  /** A transport that closes itself leaves what a cancelled close leaves. */
  lemma DropCloses(s: State, olt: OltId)
    ensures Drop(s, olt, true) == Remove(s, olt, true)
  {
  }

  lemma DropIsValid(s: State, olt: OltId, closes: bool)
    requires s.Valid()
    ensures Drop(s, olt, closes).Valid()
  {
    if closes {
      DropCloses(s, olt);
      RemoveIsValid(s, olt, true);
    } else if olt in s.drivers {
      SocketsSame(s.drivers, olt);
    }
  }

  lemma {:induction false} CloseEachIsValid(s: State, order: seq<OltId>, cut: nat)
    requires s.Valid()
    ensures CloseEach(s, order, cut).Valid()
    decreases |order|
  {
    if order != [] {
      RemoveIsValid(s, order[0], cut == 0);
      if cut > 0 { CloseEachIsValid(Remove(s, order[0], false), order[1..], cut - 1); }
    }
  }

  lemma Subtract(a: set<nat>, b: set<nat>)
    requires b <= a
    ensures |a - b| == |a| - |b|
  {
    assert (a - b) + b == a;
  }

  lemma CloseEachNext(s: State, order: seq<OltId>, i: nat, cut: nat)
    requires i < |order| && i <= cut
    ensures CloseEach(s, order[i..], cut - i)
         == if cut == i then Remove(s, order[i], true)
            else CloseEach(Remove(s, order[i], false), order[i + 1..], cut - (i + 1))
  {
    assert order[i..][0] == order[i] && order[i..][1..] == order[i + 1..];
  }

  lemma CollectIsValid(s: State, reached: set<nat>)
    requires s.Valid()
    ensures Collect(s, reached).Valid()
  {
    var n := s.abandoned * reached;
    Subtract(s.live, n);
    forall olt | olt in s.drivers ensures s.drivers[olt].socket !in n {
      assert s.drivers[olt].socket in s.Pooled();
    }
    assert Collect(s, reached).Pooled() == s.Pooled();
  }

  lemma {:induction false} PooledCount(m: map<OltId, Driver>)
    requires OneEach(m)
    ensures |Sockets(m)| == |m|
    decreases |m|
  {
    if |m| != 0 {
      assert m.Keys != {};
      var olt :| olt in m.Keys;
      SocketsWithout(m, olt);
      PooledCount(m - {olt});
      assert m[olt].socket in Sockets(m);
    }
  }

  // ------------------------------------------------------------- conservation

  /** Opened minus closed is the pool size, less the entries that are closed already, plus what is abandoned. */
  lemma Conservation(s: State)
    requires s.Valid()
    ensures s.opens - s.closes == |s.drivers| - |s.Spent()| + |s.abandoned|
  {
    var usable := Usable(s);
    UsableCount(s);
    PooledCount(usable);
    UsableSockets(s);
    Subtract(s.live, s.abandoned);
  }

  /** The entries whose socket is still open. */
  ghost function Usable(s: State): map<OltId, Driver> {
    s.drivers - s.Spent()
  }

  lemma UsableCount(s: State)
    ensures |Usable(s)| == |s.drivers| - |s.Spent()|
  {
    assert Usable(s).Keys == s.drivers.Keys - s.Spent();
    assert Usable(s).Keys + s.Spent() == s.drivers.Keys;
  }

  lemma UsableSockets(s: State)
    requires s.Valid()
    ensures Sockets(Usable(s)) == s.live - s.abandoned
  {
    var usable := Usable(s);
    forall x | x in s.live - s.abandoned ensures x in Sockets(usable) {
      assert x in s.Pooled();
      var k :| k in s.drivers && s.drivers[k].socket == x;
      assert k in usable && usable[k].socket == x;
    }
    forall x | x in Sockets(usable) ensures x in s.live - s.abandoned {
      var k :| k in usable && usable[k].socket == x;
      assert x in s.Pooled();
    }
  }

  predicate Balanced(s: State) { s.opens - s.closes == |s.drivers| }

  // --------------------------------------------------------------------- runs

  /** `cut` tells whether, or at which entry, a close is cancelled. */
  datatype Op =
    | GetOp(olt: OltId, cut: bool, attempt: Attempt)
    | ReleaseOp(olt: OltId, cut: bool)
    | DropOp(olt: OltId, closes: bool)
    | CloseAllOp(order: seq<OltId>, cutAt: nat)
    | CollectOp(reached: set<nat>)

  function Apply(s: State, op: Op): State {
    match op
    case GetOp(olt, cut, attempt) => Get(s, olt, cut, attempt)
    case ReleaseOp(olt, cut) => Remove(s, olt, cut)
    case DropOp(olt, closes) => Drop(s, olt, closes)
    case CloseAllOp(order, cutAt) => if IsOrder(order, s.drivers) then CloseEach(s, order, cutAt) else s
    case CollectOp(reached) => Collect(s, reached)
  }

  function Run(s: State, ops: seq<Op>): State
    decreases |ops|
  {
    if ops == [] then s else Run(Apply(s, ops[0]), ops[1..])
  }

  /** The close of an entry is cancelled. */
  predicate CutsClose(s: State, op: Op) {
    match op
    case GetOp(olt, cut, _) => olt in s.drivers && !s.drivers[olt].connected && cut
    case ReleaseOp(olt, cut) => olt in s.drivers && cut
    case CloseAllOp(order, cutAt) => IsOrder(order, s.drivers) && cutAt < |order|
    case _ => false
  }

  /** A login is cancelled. */
  predicate CutsLogin(s: State, op: Op) {
    op.GetOp? && !Reuses(s, op.olt) && !CutsClose(s, op) && op.attempt.Cancelled?
  }

  /** The transport of a pooled connection closes it. */
  predicate ClosesItself(s: State, op: Op) {
    op.DropOp? && op.closes && op.olt in s.drivers
  }

  predicate Disturbs(s: State, op: Op) {
    CutsClose(s, op) || CutsLogin(s, op) || ClosesItself(s, op)
  }

  predicate Undisturbed(s: State, ops: seq<Op>)
    decreases |ops|
  {
    ops == [] || (!Disturbs(s, ops[0]) && Undisturbed(Apply(s, ops[0]), ops[1..]))
  }

  predicate AlwaysBalanced(s: State, ops: seq<Op>)
    decreases |ops|
  {
    Balanced(s) && (ops == [] || AlwaysBalanced(Apply(s, ops[0]), ops[1..]))
  }

  lemma ApplyIsValid(s: State, op: Op)
    requires s.Valid()
    ensures Apply(s, op).Valid()
  {
    match op
    case GetOp(olt, cut, attempt) => GetIsValid(s, olt, cut, attempt);
    case ReleaseOp(olt, cut) => RemoveIsValid(s, olt, cut);
    case DropOp(olt, closes) => DropIsValid(s, olt, closes);
    case CloseAllOp(order, cutAt) => CloseEachIsValid(s, order, cutAt);
    case CollectOp(reached) => CollectIsValid(s, reached);
  }

  lemma {:induction false} RunIsValid(s: State, ops: seq<Op>)
    requires s.Valid()
    ensures Run(s, ops).Valid()
    decreases |ops|
  {
    if ops != [] {
      ApplyIsValid(s, ops[0]);
      RunIsValid(Apply(s, ops[0]), ops[1..]);
    }
  }

  /** Over every run, cancellations included, opened minus closed is the pool size, less the entries that are
      closed already, plus the abandoned sockets. */
  lemma ConservedOverRuns(ops: seq<Op>)
    ensures
      var s := Run(EMPTY, ops);
      s.opens - s.closes == |s.drivers| - |s.Spent()| + |s.abandoned|
  {
    EmptyIsClean();
    RunIsValid(EMPTY, ops);
    Conservation(Run(EMPTY, ops));
  }

  /** Nothing abandoned and no entry closed already. */
  ghost predicate Clean(s: State) {
    s.Valid() && s.abandoned == {} && s.Spent() == {}
  }

  lemma EmptyIsClean()
    ensures Clean(EMPTY)
  {
    assert EMPTY.Pooled() == {};
  }

  lemma CleanIsBalanced(s: State)
    requires Clean(s)
    ensures Balanced(s)
  {
    Conservation(s);
  }

  lemma AllLive(s: State, olt: OltId)
    requires Clean(s) && olt in s.drivers
    ensures s.drivers[olt].socket in s.live
  {
    assert olt !in s.Spent();
  }

  /** From a clean state, a close leaves a spent entry if and only if it is cancelled. */
  lemma RemoveFromClean(s: State, olt: OltId, cut: bool)
    requires Clean(s)
    ensures
      var s' := Remove(s, olt, cut);
      s'.Valid() && s'.abandoned == {} && s'.Spent() == if olt in s.drivers && cut then {olt} else {}
  {
    RemoveIsValid(s, olt, cut);
    if olt in s.drivers {
      forall k | k in s.drivers
        ensures s.drivers[k].socket in s.live && (k != olt ==> s.drivers[k].socket != s.drivers[olt].socket) {
        AllLive(s, k);
      }
      assert Remove(s, olt, cut).Spent() == if cut then {olt} else {};
    }
  }

  lemma RemoveStaysClean(s: State, olt: OltId)
    requires Clean(s)
    ensures Clean(Remove(s, olt, false))
  {
    RemoveFromClean(s, olt, false);
  }

  lemma {:induction false} CloseEachStaysClean(s: State, order: seq<OltId>, cut: nat)
    requires Clean(s) && cut >= |order|
    ensures Clean(CloseEach(s, order, cut))
    decreases |order|
  {
    if order != [] {
      RemoveStaysClean(s, order[0]);
      CloseEachStaysClean(Remove(s, order[0], false), order[1..], cut - 1);
    }
  }

  lemma {:induction false} CloseEachKeepsOthers(s: State, order: seq<OltId>, cut: nat, olt: OltId)
    requires olt in s.drivers && olt !in order
    ensures olt in CloseEach(s, order, cut).drivers
    decreases |order|
  {
    if order != [] && cut > 0 {
      assert order == [order[0]] + order[1..];
      CloseEachKeepsOthers(Remove(s, order[0], false), order[1..], cut - 1, olt);
    }
  }

  /** A cancelled closing is a complete closing of the entries before, and one cancelled close. */
  lemma {:induction false} CloseEachSplits(s: State, order: seq<OltId>, cut: nat)
    requires cut < |order|
    ensures CloseEach(s, order, cut) == Remove(CloseEach(s, order[..cut], cut), order[cut], true)
    decreases |order|
  {
    if cut > 0 {
      assert order[1..][..cut - 1] == order[..cut][1..];
      CloseEachSplits(Remove(s, order[0], false), order[1..], cut - 1);
    }
  }

  /** So many spent entries, and nothing abandoned. */
  ghost predicate Marred(s: State, spent: nat) {
    s.abandoned == {} && |s.Spent()| == spent
  }

  lemma CloseEachFromClean(s: State, order: seq<OltId>, cut: nat)
    requires Clean(s) && DistinctIn(order, s.drivers.Keys)
    ensures Marred(CloseEach(s, order, cut), if cut < |order| then 1 else 0)
  {
    if cut < |order| {
      var before := CloseEach(s, order[..cut], cut);
      CloseEachSplits(s, order, cut);
      CloseEachStaysClean(s, order[..cut], cut);
      CloseEachKeepsOthers(s, order[..cut], cut, order[cut]);
      RemoveFromClean(before, order[cut], true);
    } else {
      CloseEachStaysClean(s, order, cut);
    }
  }

  lemma ConnectFromClean(s: State, olt: OltId, attempt: Attempt)
    requires Clean(s) && olt !in s.drivers
    ensures
      var c := Connect(s, attempt);
      var s' := if attempt.Connected? then c.(drivers := c.drivers[olt := Driver(s.opens, attempt.up)]) else c;
      s'.Spent() == {} && |s'.abandoned| == if attempt.Cancelled? then 1 else 0
  {
    forall k | k in s.drivers ensures s.drivers[k].socket in s.live { AllLive(s, k); }
  }

  /** From a clean state: a cancelled close, or a transport that closes itself, leaves one spent entry, and a
      cancelled login one abandoned socket. */
  ghost predicate Counted(s: State, op: Op) {
    var s' := Apply(s, op);
    && |s'.Spent()| == (if CutsClose(s, op) || ClosesItself(s, op) then 1 else 0)
    && |s'.abandoned| == (if CutsLogin(s, op) then 1 else 0)
  }

  lemma GetCounted(s: State, op: Op)
    requires Clean(s) && op.GetOp?
    ensures Counted(s, op)
  {
    if Reuses(s, op.olt) {
      assert Apply(s, op) == s;
    } else if CutsClose(s, op) {
      RemoveFromClean(s, op.olt, true);
    } else {
      RemoveFromClean(s, op.olt, false);
      ConnectFromClean(Remove(s, op.olt, false), op.olt, op.attempt);
    }
  }

  lemma CloseCounted(s: State, op: Op)
    requires Clean(s) && (op.ReleaseOp? || op.CloseAllOp?)
    ensures Counted(s, op)
  {
    if op.ReleaseOp? {
      RemoveFromClean(s, op.olt, op.cut);
    } else if IsOrder(op.order, s.drivers) {
      CloseEachFromClean(s, op.order, op.cutAt);
    }
  }

  lemma OtherCounted(s: State, op: Op)
    requires Clean(s) && (op.DropOp? || op.CollectOp?)
    ensures Counted(s, op)
  {
    if op.DropOp? && op.closes {
      DropCloses(s, op.olt);
      RemoveFromClean(s, op.olt, true);
    } else if op.DropOp? {
      forall k | k in s.drivers ensures s.drivers[k].socket in s.live { AllLive(s, k); }
      assert Drop(s, op.olt, false).Spent() == {};
    } else {
      CollectNothing(s, op.reached);
    }
  }

  /** From a clean state an operation stays clean if nothing disturbs it, and is out of balance at once if
      something does. */
  lemma StepFromClean(s: State, op: Op)
    requires Clean(s)
    ensures if Disturbs(s, op) then !Balanced(Apply(s, op)) else Clean(Apply(s, op))
  {
    if op.GetOp? { GetCounted(s, op); }
    else if op.ReleaseOp? || op.CloseAllOp? { CloseCounted(s, op); }
    else { OtherCounted(s, op); }
    ApplyIsValid(s, op);
    Conservation(Apply(s, op));
  }

  lemma CollectNothing(s: State, reached: set<nat>)
    requires s.abandoned == {}
    ensures Collect(s, reached) == s
  {
    assert s.abandoned * reached == {};
    assert s.live - {} == s.live;
  }

  lemma {:induction false} BalancedFromClean(s: State, ops: seq<Op>)
    requires Clean(s)
    ensures AlwaysBalanced(s, ops) <==> Undisturbed(s, ops)
    decreases |ops|
  {
    CleanIsBalanced(s);
    if ops != [] {
      StepFromClean(s, ops[0]);
      if Clean(Apply(s, ops[0])) { BalancedFromClean(Apply(s, ops[0]), ops[1..]); }
    }
  }

  /** Opened minus closed equals the pool size throughout a run if and only if no login and no close of the run is
      cancelled and no transport of a pooled connection closes it. */
  lemma BalancedIffUndisturbed(ops: seq<Op>)
    ensures AlwaysBalanced(EMPTY, ops) <==> Undisturbed(EMPTY, ops)
  {
    EmptyIsClean();
    BalancedFromClean(EMPTY, ops);
  }

  /** Entry `k` of the order after a closing that was cancelled at entry `cut`: gone before it, closed but kept at it,
      untouched after it. */
  ghost predicate ClosedUpTo(s: State, s': State, order: seq<OltId>, cut: nat, k: nat)
    requires k < |order|
  {
    var olt := order[k];
    && olt in s.drivers
    && (k < cut ==> olt !in s'.drivers)
    && (k == cut ==>
          && olt in s'.drivers && s'.drivers[olt] == s.drivers[olt].(connected := false)
          && s.drivers[olt].socket !in s'.live)
    && (k > cut ==>
          && olt in s'.drivers && s'.drivers[olt] == s.drivers[olt]
          && (s.drivers[olt].socket in s'.live <==> s.drivers[olt].socket in s.live))
  }

  lemma {:induction false} CloseEachEffect(s: State, order: seq<OltId>, cut: nat, k: nat)
    requires OneEach(s.drivers) && DistinctIn(order, s.drivers.Keys) && k < |order|
    ensures ClosedUpTo(s, CloseEach(s, order, cut), order, cut, k)
    decreases |order|
  {
    if cut == 0 {
      ClosedAtOnce(s, order, k);
    } else {
      var s1, rest := Remove(s, order[0], false), order[1..];
      RestIsDistinct(s, order);
      if k == 0 {
        CloseEachAddsNone(s1, rest, cut - 1, order[0]);
      } else {
        CloseEachEffect(s1, rest, cut - 1, k - 1);
        RemoveKeepsOthers(s, order[0], order[k]);
        ClosedStep(s, s1, CloseEach(s1, rest, cut - 1), order, cut, k);
      }
    }
  }

  lemma RestIsDistinct(s: State, order: seq<OltId>)
    requires OneEach(s.drivers) && DistinctIn(order, s.drivers.Keys) && order != []
    ensures DistinctIn(order[1..], Remove(s, order[0], false).drivers.Keys) && OneEach(Remove(s, order[0], false).drivers)
  {
    var rest := order[1..];
    assert forall i :: 0 <= i < |rest| ==> rest[i] == order[i + 1];
  }

  lemma ClosedAtOnce(s: State, order: seq<OltId>, k: nat)
    requires OneEach(s.drivers) && DistinctIn(order, s.drivers.Keys) && k < |order|
    ensures ClosedUpTo(s, CloseEach(s, order, 0), order, 0, k)
  {
    if k > 0 { assert s.drivers[order[k]].socket != s.drivers[order[0]].socket; }
  }

  lemma ClosedStep(s: State, s1: State, s': State, order: seq<OltId>, cut: nat, k: nat)
    requires 0 < k < |order| && cut > 0 && ClosedUpTo(s1, s', order[1..], cut - 1, k - 1)
    requires order[k] in s.drivers && order[k] in s1.drivers && s1.drivers[order[k]] == s.drivers[order[k]]
    requires s.drivers[order[k]].socket in s1.live <==> s.drivers[order[k]].socket in s.live
    ensures ClosedUpTo(s, s', order, cut, k)
  {
    assert order[1..][k - 1] == order[k];
  }

  lemma RemoveKeepsOthers(s: State, olt: OltId, other: OltId)
    requires OneEach(s.drivers) && olt in s.drivers && other in s.drivers && other != olt
    ensures
      var s' := Remove(s, olt, false);
      && other in s'.drivers && s'.drivers[other] == s.drivers[other]
      && (s.drivers[other].socket in s'.live <==> s.drivers[other].socket in s.live)
  {
    assert s.drivers[other].socket != s.drivers[olt].socket;
  }

  lemma {:induction false} CloseEachAddsNone(s: State, order: seq<OltId>, cut: nat, olt: OltId)
    requires olt !in s.drivers
    ensures olt !in CloseEach(s, order, cut).drivers
    decreases |order|
  {
    if order != [] && cut > 0 { CloseEachAddsNone(Remove(s, order[0], false), order[1..], cut - 1, olt); }
  }

  lemma {:induction false} CloseEachEmpties(s: State, order: seq<OltId>, cut: nat, olt: OltId)
    requires cut >= |order| && (olt in s.drivers ==> olt in order)
    ensures olt !in CloseEach(s, order, cut).drivers
    decreases |order|
  {
    if order != [] {
      assert olt in order ==> olt == order[0] || olt in order[1..];
      CloseEachEmpties(Remove(s, order[0], false), order[1..], cut - 1, olt);
    }
  }

  /** Closing the whole pool leaves open only what is abandoned. */
  lemma CloseAllLeavesAbandoned(s: State, order: seq<OltId>, cut: nat)
    requires s.Valid() && IsOrder(order, s.drivers) && cut >= |order|
    ensures
      var s' := CloseEach(s, order, cut);
      s'.drivers == map[] && s'.live == s'.abandoned == s.abandoned && s'.opens - s'.closes == |s.abandoned|
  {
    CloseEachIsValid(s, order, cut);
    CloseEachKeepsAbandoned(s, order, cut);
    forall olt ensures olt !in CloseEach(s, order, cut).drivers { CloseEachEmpties(s, order, cut, olt); }
    EmptyPool(CloseEach(s, order, cut));
  }

  lemma EmptyPool(s: State)
    requires s.Valid() && forall olt :: olt !in s.drivers
    ensures s.drivers == map[] && s.live == s.abandoned
  {
    assert s.Pooled() == {};
  }

  /** And after the next collection nothing is open at all. */
  lemma CloseAllAndCollect(s: State, order: seq<OltId>, cut: nat)
    requires s.Valid() && IsOrder(order, s.drivers) && cut >= |order|
    ensures
      var s' := Collect(CloseEach(s, order, cut), s.abandoned);
      s'.drivers == map[] && s'.live == {} && s'.opens == s'.closes
  {
    CloseAllLeavesAbandoned(s, order, cut);
    assert s.abandoned * s.abandoned == s.abandoned;
  }

  /** A cancelled login leaves its socket open, and no operation of the pool closes it. */
  lemma AbandonedStays(s: State, op: Op)
    requires s.Valid() && !op.CollectOp?
    ensures s.abandoned <= Apply(s, op).abandoned
  {
    if op.CloseAllOp? { CloseEachKeepsAbandoned(s, op.order, op.cutAt); }
  }

  lemma {:induction false} CloseEachKeepsAbandoned(s: State, order: seq<OltId>, cut: nat)
    ensures CloseEach(s, order, cut).abandoned == s.abandoned
    decreases |order|
  {
    if order != [] && cut > 0 { CloseEachKeepsAbandoned(Remove(s, order[0], false), order[1..], cut - 1); }
  }

  /** Runs out of balance: a cancelled login, a cancelled release, and a connection whose transport closed it. */
  lemma OutOfBalance()
    ensures
      var s := Run(EMPTY, [GetOp(OltId(1), false, Cancelled)]);
      s.opens - s.closes == 1 && s.drivers == map[]
    ensures
      var s := Run(EMPTY, [GetOp(OltId(1), false, Connected(true)), ReleaseOp(OltId(1), true)]);
      s.opens - s.closes == 0 && OltId(1) in s.drivers && |s.drivers| == 1
    ensures
      var s := Run(EMPTY, [GetOp(OltId(1), false, Connected(true)), DropOp(OltId(1), true)]);
      s.opens - s.closes == 0 && OltId(1) in s.drivers && |s.drivers| == 1
  {
    var login, get := GetOp(OltId(1), false, Cancelled), GetOp(OltId(1), false, Connected(true));
    assert Run(EMPTY, [login]) == Run(Apply(EMPTY, login), []);
    var s1 := Apply(EMPTY, get);
    assert s1.drivers == map[OltId(1) := Driver(0, true)] && s1.live == {0};
    DropCloses(s1, OltId(1));
    assert Remove(s1, OltId(1), true).drivers == map[OltId(1) := Driver(0, false)];
    TwoOps(EMPTY, get, ReleaseOp(OltId(1), true));
    TwoOps(EMPTY, get, DropOp(OltId(1), true));
  }

  lemma TwoOps(s: State, a: Op, b: Op)
    ensures Run(s, [a, b]) == Apply(Apply(s, a), b)
  {
    assert [a, b][1..] == [b] && [b][1..] == [];
    assert Run(Apply(s, a), [b]) == Run(Apply(Apply(s, a), b), []);
  }
}
