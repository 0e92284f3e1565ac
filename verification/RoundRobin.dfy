/** Fairness of giving each new ticket to the technician whose last ticket is oldest. */
module RoundRobin {
  import opened Options
  import opened AlarmStore

  type Stamps = map<UserId, Option<int>>

  /** One assignment: who, and when. */
  datatype Turn = Turn(user: UserId, at: int)

  ghost predicate IsOldest(last: Stamps, u: UserId) {
    u in last && forall v :: v in last ==> NoLater(last[u], last[v])
  }

  ghost predicate Past(last: Stamps, now: int) {
    forall u :: u in last && last[u].Some? ==> last[u].value <= now
  }

  /** A run of assignments under a strictly increasing clock. Among equally old technicians any may be picked. */
  ghost predicate Turns(last: Stamps, now: int, turns: seq<Turn>)
    decreases |turns|
  {
    turns == [] ||
    (now < turns[0].at && IsOldest(last, turns[0].user)
     && Turns(last[turns[0].user := Some(turns[0].at)], turns[0].at, turns[1..]))
  }

  function After(last: Stamps, turns: seq<Turn>): Stamps
    decreases |turns|
  {
    if turns == [] then last else After(last[turns[0].user := Some(turns[0].at)], turns[1..])
  }

  function Clock(now: int, turns: seq<Turn>): int {
    if turns == [] then now else turns[|turns| - 1].at
  }

  predicate NoRepeats(turns: seq<Turn>) {
    forall i, j :: 0 <= i < j < |turns| ==> turns[i].user != turns[j].user
  }

  ghost function Since(last: Stamps, start: int): set<UserId> {
    set u | u in last && last[u].Some? && last[u].value > start
  }

  /** Someone who has had a turn since `start` is not picked again while someone else has not. */
  lemma {:induction false} NobodyTwice(last: Stamps, now: int, turns: seq<Turn>, start: int)
    requires Turns(last, now, turns) && start <= now
    requires |Since(last, start)| + |turns| <= |last|
    ensures NoRepeats(turns)
    ensures forall i :: 0 <= i < |turns| ==> turns[i].user in last && turns[i].user !in Since(last, start)
    decreases |turns|
  {
    if turns != [] {
      var u, at, rest := turns[0].user, turns[0].at, turns[1..];
      var recent := Since(last, start);
      OneIsWaiting(last, recent);
      var v :| v in last && v !in recent;
      assert NoLater(last[u], last[v]);
      var last' := last[u := Some(at)];
      assert last'.Keys == last.Keys;
      assert |last'.Keys| == |last.Keys|;
      assert Since(last', start) == recent + {u};
      NobodyTwice(last', at, rest, start);
      forall i, j | 0 <= i < j < |turns| ensures turns[i].user != turns[j].user {
        if i == 0 {
          assert rest[j - 1].user !in Since(last', start);
        } else {
          assert rest[i - 1].user != rest[j - 1].user;
        }
      }
    }
  }

  lemma OneIsWaiting(last: Stamps, recent: set<UserId>)
    requires recent <= last.Keys && |recent| < |last|
    ensures exists v :: v in last && v !in recent
  {
    if forall v :: v in last ==> v in recent {
      SameSet(last.Keys, recent);
    }
  }

  lemma SameSet(a: set<UserId>, b: set<UserId>)
    requires a <= b && b <= a
    ensures |a| == |b|
  {
    assert a == b;
  }

  lemma {:induction false} TurnsSplit(last: Stamps, now: int, a: seq<Turn>, b: seq<Turn>)
    requires Turns(last, now, a + b) && Past(last, now)
    ensures Turns(last, now, a)
    ensures Turns(After(last, a), Clock(now, a), b) && Past(After(last, a), Clock(now, a))
    ensures After(last, a).Keys == last.Keys
    decreases |a|
  {
    if a == [] {
      assert a + b == b;
    } else {
      var last' := last[a[0].user := Some(a[0].at)];
      assert (a + b)[1..] == a[1..] + b;
      assert last'.Keys == last.Keys;
      TurnsSplit(last', a[0].at, a[1..], b);
      assert Clock(a[0].at, a[1..]) == Clock(now, a);
    }
  }

  /** Any window of at most n assignments, anywhere in a run, repeats nobody. */
  lemma WindowHasNoRepeats(last: Stamps, now: int, turns: seq<Turn>, i: nat, m: nat)
    requires Turns(last, now, turns) && Past(last, now)
    requires i + m <= |turns| && m <= |last|
    ensures NoRepeats(turns[i..i + m])
    ensures forall k :: i <= k < i + m ==> turns[k].user in last
  {
    var l', t', w := After(last, turns[..i]), Clock(now, turns[..i]), turns[i..i + m];
    MiddleTurns(last, now, turns, i, m);
    NobodySince(l', t');
    SameKeysSameSize(last, l');
    NobodyTwice(l', t', w, t');
    assert forall k :: i <= k < i + m ==> turns[k] == w[k - i];
  }

  lemma MiddleTurns(last: Stamps, now: int, turns: seq<Turn>, i: nat, m: nat)
    requires Turns(last, now, turns) && Past(last, now) && i + m <= |turns|
    ensures
      var l', t' := After(last, turns[..i]), Clock(now, turns[..i]);
      Turns(l', t', turns[i..i + m]) && Past(l', t') && l'.Keys == last.Keys
  {
    var a, w, b := turns[..i], turns[i..i + m], turns[i + m..];
    assert turns == a + (w + b);
    TurnsSplit(last, now, a, w + b);
    TurnsSplit(After(last, a), Clock(now, a), w, b);
  }

  lemma NobodySince(last: Stamps, now: int)
    requires Past(last, now)
    ensures Since(last, now) == {}
  {
  }

  lemma SameKeysSameSize(m: Stamps, n: Stamps)
    requires m.Keys == n.Keys
    ensures |m| == |n|
  {
    assert |m.Keys| == |n.Keys|;
  }

  function Count(turns: seq<Turn>, u: UserId): nat {
    if turns == [] then 0 else (if turns[0].user == u then 1 else 0) + Count(turns[1..], u)
  }

  lemma {:induction false} CountConcat(a: seq<Turn>, b: seq<Turn>, u: UserId)
    ensures Count(a + b, u) == Count(a, u) + Count(b, u)
  {
    if a == [] {
      assert a + b == b;
    } else {
      assert (a + b)[1..] == a[1..] + b;
      CountConcat(a[1..], b, u);
    }
  }

  ghost function Users(turns: seq<Turn>): set<UserId> {
    set i | 0 <= i < |turns| :: turns[i].user
  }

  lemma {:induction false} CountWithoutRepeats(turns: seq<Turn>, u: UserId)
    requires NoRepeats(turns)
    ensures Count(turns, u) == if u in Users(turns) then 1 else 0
    ensures |Users(turns)| == |turns|
  {
    if turns != [] {
      var rest := turns[1..];
      assert forall i :: 0 <= i < |rest| ==> rest[i] == turns[i + 1];
      CountWithoutRepeats(rest, u);
      assert Users(turns) == {turns[0].user} + Users(rest) by {
        forall x | x in {turns[0].user} + Users(rest) ensures x in Users(turns) {
          if x != turns[0].user {
            var i :| 0 <= i < |rest| && rest[i].user == x;
            assert turns[i + 1].user == x;
          }
        }
        forall x | x in Users(turns) ensures x in {turns[0].user} + Users(rest) {
          var i :| 0 <= i < |turns| && turns[i].user == x;
          if i > 0 { assert rest[i - 1].user == x; }
        }
      }
      assert turns[0].user !in Users(rest);
    }
  }

  /** n consecutive assignments among n technicians pick each exactly once. */
  lemma FullRound(last: Stamps, now: int, turns: seq<Turn>, i: nat, u: UserId)
    requires Turns(last, now, turns) && Past(last, now) && u in last
    requires i + |last| <= |turns|
    ensures Count(turns[i..i + |last|], u) == 1
  {
    var w := turns[i..i + |last|];
    WindowHasNoRepeats(last, now, turns, i, |last|);
    CountWithoutRepeats(w, u);
    assert forall k :: 0 <= k < |w| ==> w[k] == turns[i + k];
    assert Users(w) <= last.Keys;
    SubsetOfSameSize(Users(w), last.Keys);
  }

  lemma SubsetOfSameSize(a: set<UserId>, b: set<UserId>)
    requires a <= b && |a| == |b|
    ensures a == b
  {
    assert b == a + (b - a);
    assert |b| == |a| + |b - a|;
  }

  /** Complete rounds of n in m. */
  function Rounds(m: nat, n: nat): (q: nat)
    requires n > 0
  {
    if m < n then 0 else Rounds(m - n, n) + 1
  }

  lemma CountSplits(turns: seq<Turn>, i: nat, j: nat, k: nat, u: UserId)
    requires i <= j <= k <= |turns|
    ensures Count(turns[i..k], u) == Count(turns[i..j], u) + Count(turns[j..k], u)
  {
    assert turns[i..k] == turns[i..j] + turns[j..k];
    CountConcat(turns[i..j], turns[j..k], u);
  }

  /** Over any window of m assignments each of n technicians gets one per complete round, or one more. */
  lemma {:induction false} WindowShare(last: Stamps, now: int, turns: seq<Turn>, i: nat, m: nat, u: UserId)
    requires Turns(last, now, turns) && Past(last, now) && u in last
    requires i + m <= |turns|
    ensures |last| > 0 && Rounds(m, |last|) <= Count(turns[i..i + m], u) <= Rounds(m, |last|) + 1
    decreases m
  {
    var n := |last|;
    assert n > 0 by { assert last.Keys != {}; }
    if m < n {
      WindowHasNoRepeats(last, now, turns, i, m);
      CountWithoutRepeats(turns[i..i + m], u);
    } else {
      FullRound(last, now, turns, i, u);
      WindowShare(last, now, turns, i + n, m - n, u);
      CountSplits(turns, i, i + n, i + m, u);
    }
  }

  lemma SharesDifferByAtMostOne(last: Stamps, now: int, turns: seq<Turn>, i: nat, m: nat, u: UserId, v: UserId)
    requires Turns(last, now, turns) && Past(last, now) && u in last && v in last && i + m <= |turns|
    ensures -1 <= Count(turns[i..i + m], u) - Count(turns[i..i + m], v) <= 1
  {
    WindowShare(last, now, turns, i, m, u);
    WindowShare(last, now, turns, i, m, v);
  }

  // ------------------------------------------------- the ticket service takes turns

  /** A ticket creation, after `idle` other readings of the clock. */
  datatype Creation = Creation(onu: nat, kind: AlarmType, severity: Severity, rx: Option<int>, pick: UserId, idle: nat)

  function Created(s: Store, c: Creation): Store
    requires c.pick in s.users
  {
    Create(s.(clock := s.clock + c.idle), c.onu, c.kind, c.severity, c.rx, Some(c.pick))
  }

  ghost predicate ValidCreations(s: Store, cs: seq<Creation>)
    decreases |cs|
  {
    cs == [] || (IsNextTechnician(s.users, Some(cs[0].pick)) && ValidCreations(Created(s, cs[0]), cs[1..]))
  }

  /** `last` holds the last ticket times of exactly the eligible technicians. */
  ghost predicate Tracks(users: map<UserId, User>, last: Stamps) {
    && (forall u :: u in last <==> u in users && Eligible(users[u]))
    && (forall u :: u in last ==> last[u] == users[u].lastTicketAt)
  }

  /** Successive ticket creations are turns by oldest timestamp. */
  lemma {:induction false} CreationsTakeTurns(s: Store, last: Stamps, cs: seq<Creation>) returns (turns: seq<Turn>)
    requires Tracks(s.users, last) && ValidCreations(s, cs) && Past(last, s.clock)
    ensures Turns(last, s.clock, turns) && TurnsOf(cs, turns)
    decreases |cs|
  {
    if cs == [] {
      turns := [];
    } else {
      var c, s' := cs[0], Created(s, cs[0]);
      assert IsOldest(last, c.pick);
      var rest := CreationsTakeTurns(s', last[c.pick := Some(s'.clock)], cs[1..]);
      turns := [Turn(c.pick, s'.clock)] + rest;
      assert turns[1..] == rest;
      assert forall k :: 0 < k < |cs| ==> turns[k] == rest[k - 1] && cs[k] == cs[1..][k - 1];
    }
  }

  predicate TurnsOf(cs: seq<Creation>, turns: seq<Turn>) {
    |turns| == |cs| && forall k :: 0 <= k < |cs| ==> turns[k].user == cs[k].pick
  }

  // --------------------------------------------------------- the tickets themselves

  /** The store after all the creations. */
  ghost function AfterCreations(s: Store, cs: seq<Creation>): Store
    requires ValidCreations(s, cs)
    decreases |cs|
  {
    if cs == [] then s else AfterCreations(Created(s, cs[0]), cs[1..])
  }

  /** How many of the tickets numbered from `i` up to `j` are assigned to the technician. */
  function Load(tickets: map<TicketId, Ticket>, i: nat, j: nat, technician: nat): nat
    decreases j - i
  {
    if i >= j then 0
    else
      var t := TicketId(i);
      (if t in tickets && tickets[t].assignedTo == Some(technician) then 1 else 0) + Load(tickets, i + 1, j, technician)
  }

  /** No two eligible users stand for one technician. */
  ghost predicate DistinctTechnicians(users: map<UserId, User>) {
    forall u, v | u in users && v in users && Eligible(users[u]) && Eligible(users[v])
      :: users[u].technician == users[v].technician ==> u == v
  }

  lemma {:induction false} TicketStays(s: Store, cs: seq<Creation>, t: TicketId)
    requires ValidCreations(s, cs) && t in s.tickets && t.n < s.nextTicket
    ensures t in AfterCreations(s, cs).tickets && AfterCreations(s, cs).tickets[t] == s.tickets[t]
    decreases |cs|
  {
    if cs != [] { TicketStays(Created(s, cs[0]), cs[1..], t); }
  }

  lemma SameTechnicians(s: Store, c: Creation, u: UserId)
    requires c.pick in s.users && u in s.users
    ensures
      var users := Created(s, c).users;
      u in users && users[u].technician == s.users[u].technician && (Eligible(users[u]) <==> Eligible(s.users[u]))
  {
  }

  /** The ticket of a creation is assigned, to the technician of the user whose turn it was. */
  lemma {:induction false} TicketOfTurn(s: Store, cs: seq<Creation>, k: nat)
    requires ValidCreations(s, cs) && k < |cs|
    ensures cs[k].pick in s.users && Eligible(s.users[cs[k].pick])
    ensures
      var t, tickets := TicketId(s.nextTicket + k), AfterCreations(s, cs).tickets;
      && t in tickets && tickets[t].status == Assigned
      && tickets[t].assignedTo == s.users[cs[k].pick].technician && tickets[t].assignedAt.Some?
    decreases |cs|
  {
    var s' := Created(s, cs[0]);
    if k == 0 {
      TicketStays(s', cs[1..], TicketId(s.nextTicket));
    } else {
      TicketOfTurn(s', cs[1..], k - 1);
      assert cs[1..][k - 1] == cs[k];
      SameTechnicians(s, cs[0], cs[k].pick);
      assert s'.nextTicket + (k - 1) == s.nextTicket + k;
    }
  }

  /** A technician's load is the number of turns of the technician's user. */
  lemma {:induction false} LoadIsCount(s: Store, cs: seq<Creation>, turns: seq<Turn>, i: nat, j: nat, u: UserId)
    requires ValidCreations(s, cs) && TurnsOf(cs, turns) && DistinctTechnicians(s.users)
    requires u in s.users && Eligible(s.users[u]) && i <= j <= |cs|
    ensures
      Load(AfterCreations(s, cs).tickets, s.nextTicket + i, s.nextTicket + j, s.users[u].technician.value)
      == Count(turns[i..j], u)
    decreases j - i
  {
    if i < j {
      TicketOfTurn(s, cs, i);
      LoadIsCount(s, cs, turns, i + 1, j, u);
      assert turns[i..j][0] == turns[i] && turns[i..j][1..] == turns[i + 1..j];
      assert turns[i].user == u <==> s.users[cs[i].pick].technician == s.users[u].technician;
    }
  }

  /** Over any window of ticket creations the tickets of two eligible technicians differ by at most one. */
  lemma {:induction false} LoadsDifferByAtMostOne(
    s: Store, last: Stamps, cs: seq<Creation>, i: nat, m: nat, u: UserId, v: UserId)
    requires Tracks(s.users, last) && ValidCreations(s, cs) && Past(last, s.clock) && DistinctTechnicians(s.users)
    requires i + m <= |cs| && u in last && v in last
    ensures
      var tickets, from, to := AfterCreations(s, cs).tickets, s.nextTicket + i, s.nextTicket + i + m;
      var a, b := s.users[u].technician.value, s.users[v].technician.value;
      -1 <= Load(tickets, from, to, a) - Load(tickets, from, to, b) <= 1
  {
    var turns := CreationsTakeTurns(s, last, cs);
    LoadIsCount(s, cs, turns, i, i + m, u);
    LoadIsCount(s, cs, turns, i, i + m, v);
    SharesDifferByAtMostOne(last, s.clock, turns, i, m, u, v);
  }

  /** As many consecutive creations as there are eligible technicians give each of them exactly one ticket. */
  lemma {:induction false} EachOnceARound(s: Store, last: Stamps, cs: seq<Creation>, i: nat, u: UserId)
    requires Tracks(s.users, last) && ValidCreations(s, cs) && Past(last, s.clock) && DistinctTechnicians(s.users)
    requires i + |last| <= |cs| && u in last
    ensures
      var tickets, from := AfterCreations(s, cs).tickets, s.nextTicket + i;
      Load(tickets, from, from + |last|, s.users[u].technician.value) == 1
  {
    var turns := CreationsTakeTurns(s, last, cs);
    LoadIsCount(s, cs, turns, i, i + |last|, u);
    FullRound(last, s.clock, turns, i, u);
  }
}
