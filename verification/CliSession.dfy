/**
 One Telnet connection to an OLT: the device's command-line modes, what a call
 writes for every way its exchanges may go, and the client's two operations.
 */
module CliSession {

  const ENTER := "configure terminal"
  const END := "end"

  /** What a caller asks of the client. */
  datatype Job = Execute(command: string) | Configure(commands: seq<string>)

  /** How one write-then-read exchange goes. */
  datatype Fate = WriteFailed | ReadFailed | Rejected | Accepted

  /** How all exchanges of a call go; `Execute` uses `entry` only. */
  datatype Fates = Fates(entry: Fate, body: seq<Fate>, last: Fate)

  // ----------------------------------------------------------------- device

  /** CLI mode after a line, given the mode before it. Mode 0 is exec mode. */
  type Device = (nat, string) -> nat

  /** What the client relies on: `end` returns to exec mode from anywhere. */
  ghost predicate EndLeaves(device: Device) {
    forall depth :: device(depth, END) == 0
  }

  predicate OpensContext(line: string) {
    "interface " <= line || "pon-onu-mng " <= line
  }

  /** The ZTE command line: 1 is global configuration, 2 an interface context. */
  function ZteDepth(depth: nat, line: string): nat {
    if line == END then 0
    else if line == ENTER then (if depth == 0 then 1 else depth)
    else if line == "exit" then (if depth == 0 then 0 else depth - 1)
    else if OpensContext(line) && depth > 0 then 2
    else depth
  }

  lemma ZteEndLeaves()
    ensures EndLeaves(ZteDepth)
  {
  }

  function DepthOver(device: Device, depth: nat, lines: seq<string>): nat
    decreases |lines|
  {
    if lines == [] then depth else DepthOver(device, device(depth, lines[0]), lines[1..])
  }

  lemma {:induction false} DepthOverConcat(device: Device, depth: nat, a: seq<string>, b: seq<string>)
    ensures DepthOver(device, depth, a + b) == DepthOver(device, DepthOver(device, depth, a), b)
    decreases |a|
  {
    if a == [] {
      assert a + b == b;
    } else {
      assert (a + b)[1..] == a[1..] + b;
      DepthOverConcat(device, device(depth, a[0]), a[1..], b);
    }
  }

  lemma DepthOverOne(device: Device, depth: nat, line: string)
    ensures DepthOver(device, depth, [line]) == device(depth, line)
  {
    assert [line][1..] == [];
  }

  // ------------------------------------------------- what one call puts on the wire

  function Written(line: string, fate: Fate): seq<string> {
    if fate.WriteFailed? then [] else [line]
  }

  /** How many exchanges, out of at most `n`, are accepted before the first that is not. */
  function Stop(fates: seq<Fate>, n: nat): (k: nat)
    ensures k <= n && k <= |fates|
    ensures forall j :: 0 <= j < k ==> fates[j].Accepted?
    ensures k < n && k < |fates| ==> !fates[k].Accepted?
    decreases n
  {
    if n == 0 then 0
    else
      var k := Stop(fates, n - 1);
      if k == n - 1 && k < |fates| && fates[k].Accepted? then n else k
  }

  /** The batch stops at the first command that is not accepted. */
  function BodyLines(commands: seq<string>, fates: seq<Fate>): seq<string> {
    var k := Stop(fates, |commands|);
    commands[..k] + if k < |commands| && k < |fates| then Written(commands[k], fates[k]) else []
  }

  predicate Entered(fates: Fates) {
    !fates.entry.WriteFailed? && !fates.entry.ReadFailed?
  }

  function CallLines(job: Job, fates: Fates): seq<string> {
    match job
    case Execute(command) => Written(command, fates.entry)
    case Configure(commands) =>
      Written(ENTER, fates.entry)
      + if Entered(fates) then BodyLines(commands, fates.body) + Written(END, fates.last) else []
  }

  /** No write of the batch fails. */
  predicate BodyStaysUp(commands: seq<string>, fates: seq<Fate>) {
    var k := Stop(fates, |commands|);
    k < |commands| && k < |fates| ==> !fates[k].WriteFailed?
  }

  predicate CallStaysUp(job: Job, fates: Fates) {
    && !fates.entry.WriteFailed?
    && (job.Configure? && Entered(fates) ==> BodyStaysUp(job.commands, fates.body) && !fates.last.WriteFailed?)
  }

  /** Fates given for every command that may be sent. */
  predicate Covers(job: Job, fates: Fates) {
    job.Configure? ==> |fates.body| >= |job.commands|
  }

  /** Where a batch stops: after its last command, or at the first one not accepted. */
  predicate StopsAt(commands: seq<string>, fates: seq<Fate>, k: nat) {
    && k <= |commands| <= |fates|
    && (forall j :: 0 <= j < k ==> fates[j] == Accepted)
    && (k < |commands| ==> fates[k] != Accepted)
  }

  lemma StopIsThere(commands: seq<string>, fates: seq<Fate>, k: nat)
    requires StopsAt(commands, fates, k)
    ensures Stop(fates, |commands|) == k
  {
  }

  /** A configuration call line by line. A rejected entry line counts as entered; a command that was written is on
      the wire whatever came of it; and once entered, `end` follows in any case. */
  lemma ConfigureByCases(commands: seq<string>, fates: Fates, k: nat)
    requires StopsAt(commands, fates.body, k)
    ensures
      var job := Configure(commands);
      match fates.entry
      case WriteFailed => CallLines(job, fates) == [] && !CallStaysUp(job, fates)
      case ReadFailed => CallLines(job, fates) == ["configure terminal"] && CallStaysUp(job, fates)
      case _ =>
        var failing := if k < |commands| && fates.body[k] != WriteFailed then [commands[k]] else [];
        && CallLines(job, fates)
           == ["configure terminal"] + commands[..k] + failing + (if fates.last == WriteFailed then [] else ["end"])
        && (CallStaysUp(job, fates) <==> (k < |commands| ==> fates.body[k] != WriteFailed) && fates.last != WriteFailed)
  {
    StopIsThere(commands, fates.body, k);
  }

  // ------------------------------------------------------- the client, call by call

  class OltClient {
    const device: Device
    var wire: seq<string>
    var depth: nat
    var connected: bool

    constructor (device: Device)
      ensures this.device == device && wire == [] && depth == 0 && connected
    {
      this.device, wire, depth, connected := device, [], 0, true;
    }

    /** One write and read; `fate` is what the network and the device make of it. */
    method Exchange(line: string, fate: Fate)
      modifies this
      ensures wire == old(wire) + Written(line, fate)
      ensures depth == DepthOver(device, old(depth), Written(line, fate))
      ensures connected == (old(connected) && !fate.WriteFailed?)
    {
      if fate.WriteFailed? {
        connected := false;
      } else {
        DepthOverOne(device, depth, line);
        wire := wire + [line];
        depth := device(depth, line);
      }
    }

    method ExecuteCommand(command: string, fates: Fates) returns (ok: bool)
      modifies this
      ensures !old(connected) ==> !ok && wire == old(wire) && depth == old(depth) && !connected
      ensures wire == old(wire) + if old(connected) && fates.entry != WriteFailed then [command] else []
      ensures connected <==> old(connected) && fates.entry != WriteFailed
      ensures ok <==> old(connected) && fates.entry == Accepted
      ensures old(connected) ==>
        && wire == old(wire) + CallLines(Execute(command), fates)
        && depth == DepthOver(device, old(depth), CallLines(Execute(command), fates))
        && (ok <==> fates.entry.Accepted?)
        && (connected <==> CallStaysUp(Execute(command), fates))
    {
      if !connected {
        return false;
      }
      Exchange(command, fates.entry);
      ok := fates.entry.Accepted?;
    }

    /** Enter configuration mode, send the batch up to the first failure, and leave again. The `end`
        runs on every path through the batch, but the entry exchange is outside that protection. */
    method ExecuteConfigMode(commands: seq<string>, fates: Fates) returns (ok: bool)
      requires Covers(Configure(commands), fates)
      modifies this
      ensures ok <==>
        && old(connected) && fates.entry in {Rejected, Accepted}
        && forall j :: 0 <= j < |commands| ==> fates.body[j] == Accepted
      ensures !old(connected) ==> !ok && wire == old(wire) && depth == old(depth) && !connected
      ensures old(connected) ==>
        && wire == old(wire) + CallLines(Configure(commands), fates)
        && depth == DepthOver(device, old(depth), CallLines(Configure(commands), fates))
        && (ok <==> Entered(fates) && Stop(fates.body, |commands|) == |commands|)
        && (connected <==> CallStaysUp(Configure(commands), fates))
    {
      if !connected {
        return false;
      }
      Exchange(ENTER, fates.entry);
      if !Entered(fates) {
        return false;
      }
      ok := SendBatch(commands, fates.body);
      ghost var sent := BodyLines(commands, fates.body);
      DepthOverConcat(device, DepthOver(device, old(depth), [ENTER]), sent, Written(END, fates.last));
      DepthOverConcat(device, old(depth), [ENTER], sent + Written(END, fates.last));
      Exchange(END, fates.last);
    }

    /** The protected loop: it raises, here returns false, at the first command not accepted. */
    method SendBatch(commands: seq<string>, fates: seq<Fate>) returns (ok: bool)
      requires |fates| >= |commands|
      modifies this
      ensures wire == old(wire) + BodyLines(commands, fates)
      ensures depth == DepthOver(device, old(depth), BodyLines(commands, fates))
      ensures ok <==> Stop(fates, |commands|) == |commands|
      ensures connected <==> old(connected) && BodyStaysUp(commands, fates)
    {
      ghost var stop := Stop(fates, |commands|);
      for k := 0 to |commands|
        invariant k <= stop && connected == old(connected)
        invariant wire == old(wire) + commands[..k]
        invariant depth == DepthOver(device, old(depth), commands[..k])
      {
        DepthOverConcat(device, old(depth), commands[..k], Written(commands[k], fates[k]));
        Exchange(commands[k], fates[k]);
        if !fates[k].Accepted? {
          return false;
        }
        assert commands[..k + 1] == commands[..k] + [commands[k]];
      }
      assert BodyLines(commands, fates) == commands[..|commands|];
      ok := true;
    }
  }
}
