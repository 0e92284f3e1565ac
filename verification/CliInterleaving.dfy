/**
 All interleavings of callers on one client. A caller waits for the lock, then
 alternates writes and reads until it releases the lock; requests, grants,
 writes and reads of different callers may come in any order.
 */
module CliInterleaving {
  import opened CliSession

  /** Where the lock holder is. `Start`, `Body` and `Ending` are about to write; the others wait for a reply. */
  datatype Point = Start | EntrySent | Body(k: nat) | BodySent(k: nat) | Ending | EndSent

  /** The lock holder, with the fates of its exchanges so far and the lines it has written. */
  datatype Holder = Holder(caller: nat, job: Job, at: Point, fates: Fates, lines: seq<string>)

  /** A finished call. */
  datatype Block = Block(caller: nat, job: Job, fates: Fates, lines: seq<string>)

  /** A line on the wire and the mode in which the device received it. */
  datatype Entry = Entry(caller: nat, line: string, depth: nat)

  datatype Lock = Free | Held(holder: Holder)

  datatype State = State(
    waiting: map<nat, Job>, lock: Lock, log: seq<Entry>, blocks: seq<Block>, depth: nat, connected: bool)

  datatype Event =
    | Request(caller: nat, job: Job)
    | Acquire(caller: nat)
    | Write(ok: bool)
    | Read(fate: Fate)

  const INITIAL := State(map[], Free, [], [], 0, true)
  const NO_FATES := Fates(Accepted, [], Accepted)

  // ------------------------------------------------------------------- steps

  predicate WantsToWrite(at: Point) { at.Start? || at.Body? || at.Ending? }

  function FirstLine(job: Job): string {
    if job.Execute? then job.command else ENTER
  }

  /** The line the holder sends next. */
  function NextLine(h: Holder): string
    requires CanWrite(h)
  {
    match h.at
    case Start => FirstLine(h.job)
    case Body(k) => h.job.commands[k]
    case _ => END
  }

  function BodyPoint(job: Job, k: nat): Point {
    if job.Configure? && k < |job.commands| then Body(k) else Ending
  }

  /** What an exchange makes of the holder: it goes on, or its call is over and the lock is released. */
  datatype Turn = GoesOn(h: Holder) | Finishes(h: Holder)

  predicate CanWrite(h: Holder) {
    WantsToWrite(h.at) && (h.at.Body? ==> h.job.Configure? && h.at.k < |h.job.commands|)
  }

  function WriteTurn(h: Holder, ok: bool): Turn
    requires CanWrite(h)
  {
    if ok then
      var sent := h.(lines := h.lines + [NextLine(h)]);
      match h.at
      case Start => GoesOn(sent.(at := EntrySent))
      case Body(k) => GoesOn(sent.(at := BodySent(k)))
      case _ => GoesOn(sent.(at := EndSent))
    else
      match h.at
      case Start => Finishes(h.(fates := h.fates.(entry := WriteFailed)))
      case Body(_) => GoesOn(h.(at := Ending, fates := h.fates.(body := h.fates.body + [WriteFailed])))
      case _ => Finishes(h.(fates := h.fates.(last := WriteFailed)))
  }

  function ReadTurn(h: Holder, fate: Fate): Turn
    requires !WantsToWrite(h.at)
  {
    match h.at
    case EntrySent =>
      var h' := h.(fates := h.fates.(entry := fate));
      if h.job.Execute? || fate.ReadFailed? then Finishes(h') else GoesOn(h'.(at := BodyPoint(h.job, 0)))
    case BodySent(k) =>
      var h' := h.(fates := h.fates.(body := h.fates.body + [fate]));
      GoesOn(h'.(at := if fate.Accepted? then BodyPoint(h.job, k + 1) else Ending))
    case _ => Finishes(h.(fates := h.fates.(last := fate)))
  }

  function TakeTurn(s: State, t: Turn): State {
    match t
    case GoesOn(h) => s.(lock := Held(h))
    case Finishes(h) => s.(lock := Free, blocks := s.blocks + [Block(h.caller, h.job, h.fates, h.lines)])
  }

  function StepWrite(device: Device, s: State, h: Holder, ok: bool): State
    requires CanWrite(h)
  {
    var wired :=
      if ok then s.(log := s.log + [Entry(h.caller, NextLine(h), s.depth)], depth := device(s.depth, NextLine(h)))
      else s.(connected := false);
    TakeTurn(wired, WriteTurn(h, ok))
  }

  /** Can the event happen now? Others leave the state alone. */
  predicate Enabled(s: State, e: Event) {
    match e
    case Request(c, _) => s.connected && c !in s.waiting && (s.lock.Held? ==> s.lock.holder.caller != c)
    case Acquire(c) => s.lock.Free? && c in s.waiting
    case Write(_) => s.lock.Held? && CanWrite(s.lock.holder)
    case Read(fate) => s.lock.Held? && !WantsToWrite(s.lock.holder.at) && !fate.WriteFailed?
  }

  function Step(device: Device, s: State, e: Event): State {
    if !Enabled(s, e) then s
    else
      match e
      case Request(c, job) => s.(waiting := s.waiting[c := job])
      case Acquire(c) =>
        s.(waiting := s.waiting - {c}, lock := Held(Holder(c, s.waiting[c], Start, NO_FATES, [])))
      case Write(ok) => StepWrite(device, s, s.lock.holder, ok)
      case Read(fate) => TakeTurn(s, ReadTurn(s.lock.holder, fate))
  }

  function Run(device: Device, s: State, es: seq<Event>): State
    decreases |es|
  {
    if es == [] then s else Run(device, Step(device, s, es[0]), es[1..])
  }

  // --------------------------------------------------------------- invariant

  /** The log of one caller writing `lines` with the connection to itself. */
  function Alone(device: Device, caller: nat, depth: nat, lines: seq<string>): seq<Entry>
    decreases |lines|
  {
    if lines == [] then []
    else
      var n := |lines| - 1;
      Alone(device, caller, depth, lines[..n])
      + [Entry(caller, lines[n], DepthOver(device, depth, lines[..n]))]
  }

  /** Mode and log after the finished calls, one after another. */
  function DepthAfterBlocks(device: Device, blocks: seq<Block>): nat
    decreases |blocks|
  {
    if blocks == [] then 0
    else
      var n := |blocks| - 1;
      DepthOver(device, DepthAfterBlocks(device, blocks[..n]), blocks[n].lines)
  }

  function Serial(device: Device, blocks: seq<Block>): seq<Entry>
    decreases |blocks|
  {
    if blocks == [] then []
    else
      var n := |blocks| - 1;
      Serial(device, blocks[..n])
      + Alone(device, blocks[n].caller, DepthAfterBlocks(device, blocks[..n]), blocks[n].lines)
  }

  predicate AllAccepted(fates: seq<Fate>) {
    forall j :: 0 <= j < |fates| ==> fates[j].Accepted?
  }

  /** What the holder has written so far is what a call with these fates writes, up to where it is. */
  predicate OnTrack(h: Holder) {
    match h.at
    case Start => h.lines == [] && h.fates == NO_FATES
    case EntrySent => h.lines == [FirstLine(h.job)] && h.fates == NO_FATES
    case Body(k) =>
      && h.job.Configure? && k < |h.job.commands| && Entered(h.fates)
      && |h.fates.body| == k && AllAccepted(h.fates.body)
      && h.lines == [ENTER] + h.job.commands[..k]
    case BodySent(k) =>
      && h.job.Configure? && k < |h.job.commands| && Entered(h.fates)
      && |h.fates.body| == k && AllAccepted(h.fates.body)
      && h.lines == [ENTER] + h.job.commands[..k + 1]
    case Ending =>
      && h.job.Configure? && Entered(h.fates)
      && h.lines == [ENTER] + BodyLines(h.job.commands, h.fates.body)
    case EndSent =>
      && h.job.Configure? && Entered(h.fates)
      && h.lines == [ENTER] + BodyLines(h.job.commands, h.fates.body) + [END]
  }

  predicate Faithful(b: Block) {
    b.lines == CallLines(b.job, b.fates)
  }

  /** The log is the finished calls one after another and then `lines` of one caller; the mode agrees. */
  predicate LogIs(
    device: Device, blocks: seq<Block>, caller: nat, lines: seq<string>, log: seq<Entry>, depth: nat)
  {
    && log == Serial(device, blocks) + Alone(device, caller, DepthAfterBlocks(device, blocks), lines)
    && depth == DepthOver(device, DepthAfterBlocks(device, blocks), lines)
  }

  function CallerInFlight(s: State): nat {
    if s.lock.Free? then 0 else s.lock.holder.caller
  }

  function LinesInFlight(s: State): seq<string> {
    if s.lock.Free? then [] else s.lock.holder.lines
  }

  predicate AllFaithful(blocks: seq<Block>) {
    forall k :: 0 <= k < |blocks| ==> Faithful(blocks[k])
  }

  predicate Inv(device: Device, s: State) {
    && LogIs(device, s.blocks, CallerInFlight(s), LinesInFlight(s), s.log, s.depth)
    && AllFaithful(s.blocks)
    && (s.lock.Held? ==> OnTrack(s.lock.holder))
  }

  predicate GoodTurn(t: Turn) {
    match t
    case GoesOn(h) => OnTrack(h)
    case Finishes(h) => h.lines == CallLines(h.job, h.fates)
  }

  lemma TurnKeepsInv(device: Device, s: State, t: Turn)
    requires LogIs(device, s.blocks, t.h.caller, t.h.lines, s.log, s.depth)
    requires AllFaithful(s.blocks) && GoodTurn(t)
    ensures Inv(device, TakeTurn(s, t))
  {
    if t.Finishes? {
      var b := Block(t.h.caller, t.h.job, t.h.fates, t.h.lines);
      FinishedLog(device, s.blocks, b, s.log, s.depth);
      assert Faithful(b);
    }
  }

  lemma FinishedLog(device: Device, blocks: seq<Block>, b: Block, log: seq<Entry>, depth: nat)
    requires LogIs(device, blocks, b.caller, b.lines, log, depth)
    ensures LogIs(device, blocks + [b], 0, [], log, depth)
  {
    var all := blocks + [b];
    assert all[..|blocks|] == blocks;
    assert Serial(device, all) + [] == Serial(device, all);
  }

  lemma SentLog(device: Device, blocks: seq<Block>, caller: nat, lines: seq<string>, log: seq<Entry>, depth: nat, line: string)
    requires LogIs(device, blocks, caller, lines, log, depth)
    ensures LogIs(device, blocks, caller, lines + [line], log + [Entry(caller, line, depth)], device(depth, line))
  {
    AloneSnoc(device, caller, DepthAfterBlocks(device, blocks), lines, line);
  }

  lemma AloneSnoc(device: Device, caller: nat, depth: nat, lines: seq<string>, line: string)
    ensures Alone(device, caller, depth, lines + [line])
         == Alone(device, caller, depth, lines) + [Entry(caller, line, DepthOver(device, depth, lines))]
    ensures DepthOver(device, depth, lines + [line]) == device(DepthOver(device, depth, lines), line)
  {
    assert (lines + [line])[..|lines|] == lines;
    DepthOverConcat(device, depth, lines, [line]);
    DepthOverOne(device, DepthOver(device, depth, lines), line);
  }

  /** A batch that has just failed at command `k`. */
  lemma FailedAt(commands: seq<string>, fates: seq<Fate>, f: Fate)
    requires AllAccepted(fates) && |fates| < |commands| && !f.Accepted?
    ensures BodyLines(commands, fates + [f]) == commands[..|fates|] + Written(commands[|fates|], f)
  {
    var k := Stop(fates + [f], |commands|);
    assert (fates + [f])[|fates|] == f;
    assert k == |fates|;
  }

  lemma AcceptedUpTo(commands: seq<string>, fates: seq<Fate>)
    requires AllAccepted(fates) && |fates| <= |commands|
    ensures BodyLines(commands, fates) == commands[..|fates|]
  {
    var k := Stop(fates, |commands|);
    StopAtEnd(fates, |commands|);
    assert k == |fates|;
  }

  lemma {:induction false} StopAtEnd(fates: seq<Fate>, n: nat)
    requires AllAccepted(fates)
    ensures Stop(fates, n) == if n <= |fates| then n else |fates|
  {
    if n > 0 { StopAtEnd(fates, n - 1); }
  }

  lemma WriteTurnIsGood(h: Holder, ok: bool)
    requires OnTrack(h) && CanWrite(h)
    ensures GoodTurn(WriteTurn(h, ok))
  {
    if h.at.Body? {
      var cs, k := h.job.commands, h.at.k;
      if ok {
        assert cs[..k + 1] == cs[..k] + [cs[k]];
      } else {
        FailedAt(cs, h.fates.body, WriteFailed);
      }
    }
  }

  lemma ReadTurnIsGood(h: Holder, fate: Fate)
    requires OnTrack(h) && !WantsToWrite(h.at) && !fate.WriteFailed?
    ensures GoodTurn(ReadTurn(h, fate))
  {
    if h.at.EntrySent? {
      if h.job.Configure? && !fate.ReadFailed? {
        AcceptedUpTo(h.job.commands, []);
        assert [ENTER] + h.job.commands[..0] == [ENTER];
      }
    } else if h.at.BodySent? {
      var cs, k, fates := h.job.commands, h.at.k, h.fates.body + [fate];
      if fate.Accepted? {
        AcceptedUpTo(cs, fates);
      } else {
        FailedAt(cs, h.fates.body, fate);
        assert cs[..k + 1] == cs[..k] + [cs[k]];
      }
    } else {
      var body := BodyLines(h.job.commands, h.fates.body);
      assert [ENTER] + body + [END] == [ENTER] + (body + [END]);
    }
  }

  lemma StepKeepsInv(device: Device, s: State, e: Event)
    requires Inv(device, s)
    ensures Inv(device, Step(device, s, e))
  {
    if Enabled(s, e) {
      match e
      case Request(c, job) =>
      case Acquire(c) =>
      case Write(ok) =>
        var h := s.lock.holder;
        WriteTurnIsGood(h, ok);
        if ok {
          SentLog(device, s.blocks, h.caller, h.lines, s.log, s.depth, NextLine(h));
          TurnKeepsInv(device,
            s.(log := s.log + [Entry(h.caller, NextLine(h), s.depth)], depth := device(s.depth, NextLine(h))),
            WriteTurn(h, ok));
        } else {
          TurnKeepsInv(device, s.(connected := false), WriteTurn(h, ok));
        }
      case Read(fate) =>
        ReadTurnIsGood(s.lock.holder, fate);
        TurnKeepsInv(device, s, ReadTurn(s.lock.holder, fate));
    }
  }

  lemma {:induction false} RunKeepsInv(device: Device, s: State, es: seq<Event>)
    requires Inv(device, s)
    ensures Inv(device, Run(device, s, es))
    decreases |es|
  {
    if es != [] {
      StepKeepsInv(device, s, es[0]);
      RunKeepsInv(device, Step(device, s, es[0]), es[1..]);
    }
  }

  /** In every interleaving the wire carries whole calls, one after another, followed by what the lock
      holder has written so far; and each call has written exactly what its own exchanges dictate. */
  lemma WholeBlocks(device: Device, es: seq<Event>)
    ensures
      var s := Run(device, INITIAL, es);
      && (s.lock.Free? ==> s.log == Serial(device, s.blocks))
      && (s.lock.Held? ==>
            s.log == Serial(device, s.blocks)
                   + Alone(device, s.lock.holder.caller, DepthAfterBlocks(device, s.blocks), s.lock.holder.lines))
      && (forall k :: 0 <= k < |s.blocks| ==> s.blocks[k].lines == CallLines(s.blocks[k].job, s.blocks[k].fates))
  {
    RunKeepsInv(device, INITIAL, es);
    var s := Run(device, INITIAL, es);
    assert forall k :: 0 <= k < |s.blocks| ==> Faithful(s.blocks[k]);
  }

  // --------------------------------------------- every request and every exchange once

  /** The requests of one caller that were taken up during the run, in order. */
  function Requested(device: Device, s: State, es: seq<Event>, caller: nat): seq<Job>
    decreases |es|
  {
    if es == [] then []
    else
      var first := if Enabled(s, es[0]) && es[0].Request? && es[0].caller == caller then [es[0].job] else [];
      first + Requested(device, Step(device, s, es[0]), es[1..], caller)
  }

  /** The caller's calls: finished, under way, waiting. */
  function Finished(blocks: seq<Block>, caller: nat): seq<Job>
    decreases |blocks|
  {
    if blocks == [] then []
    else
      var n := |blocks| - 1;
      Finished(blocks[..n], caller) + if blocks[n].caller == caller then [blocks[n].job] else []
  }

  function Calls(s: State, caller: nat): seq<Job> {
    Finished(s.blocks, caller)
    + (if s.lock.Held? && s.lock.holder.caller == caller then [s.lock.holder.job] else [])
    + (if caller in s.waiting then [s.waiting[caller]] else [])
  }

  lemma FinishedNext(blocks: seq<Block>, b: Block, caller: nat)
    ensures Finished(blocks + [b], caller) == Finished(blocks, caller) + if b.caller == caller then [b.job] else []
  {
    assert (blocks + [b])[..|blocks|] == blocks;
  }

  lemma TurnKeepsCalls(s: State, t: Turn, caller: nat)
    requires s.lock.Held? && t.h.caller == s.lock.holder.caller && t.h.job == s.lock.holder.job
    ensures Calls(TakeTurn(s, t), caller) == Calls(s, caller)
  {
    if t.Finishes? { FinishedNext(s.blocks, Block(t.h.caller, t.h.job, t.h.fates, t.h.lines), caller); }
  }

  lemma WriteKeepsCalls(device: Device, s: State, ok: bool, caller: nat)
    requires s.lock.Held? && CanWrite(s.lock.holder)
    ensures Calls(StepWrite(device, s, s.lock.holder, ok), caller) == Calls(s, caller)
  {
    var h := s.lock.holder;
    var wired :=
      if ok then s.(log := s.log + [Entry(h.caller, NextLine(h), s.depth)], depth := device(s.depth, NextLine(h)))
      else s.(connected := false);
    TurnKeepsCalls(wired, WriteTurn(h, ok), caller);
  }

  lemma RequestAddsCall(s: State, c: nat, job: Job, caller: nat)
    requires c !in s.waiting
    ensures Calls(s.(waiting := s.waiting[c := job]), caller) == Calls(s, caller) + if c == caller then [job] else []
  {
  }

  lemma AcquireKeepsCalls(s: State, c: nat, caller: nat)
    requires s.lock.Free? && c in s.waiting
    ensures
      var h := Holder(c, s.waiting[c], Start, NO_FATES, []);
      Calls(s.(waiting := s.waiting - {c}, lock := Held(h)), caller) == Calls(s, caller)
  {
  }

  /** No call is lost, doubled or changed: each caller's calls are its requests, in order, finished or pending. */
  lemma {:induction false} CallsAreRequests(device: Device, s: State, es: seq<Event>, caller: nat)
    ensures Calls(Run(device, s, es), caller) == Calls(s, caller) + Requested(device, s, es, caller)
    decreases |es|
  {
    if es != [] {
      var s1 := Step(device, s, es[0]);
      var added := if Enabled(s, es[0]) && es[0].Request? && es[0].caller == caller then [es[0].job] else [];
      assert Calls(s1, caller) == Calls(s, caller) + added by {
        if Enabled(s, es[0]) {
          match es[0]
          case Request(c, job) => RequestAddsCall(s, c, job, caller);
          case Acquire(c) => AcquireKeepsCalls(s, c, caller);
          case Write(ok) => WriteKeepsCalls(device, s, ok, caller);
          case Read(fate) => TurnKeepsCalls(s, ReadTurn(s.lock.holder, fate), caller);
        }
      }
      CallsAreRequests(device, s1, es[1..], caller);
    }
  }

  /** What came of the exchanges of the run, in order. */
  function Exchanged(device: Device, s: State, es: seq<Event>): seq<Fate>
    decreases |es|
  {
    if es == [] then [] else Came(s, es[0]) + Exchanged(device, Step(device, s, es[0]), es[1..])
  }

  function Came(s: State, e: Event): seq<Fate> {
    if !Enabled(s, e) then []
    else if e.Read? then [e.fate]
    else if e == Write(false) then [WriteFailed]
    else []
  }

  /** The fates on record, call by call: of a configuration call that was entered, all three kinds. */
  function OnRecord(blocks: seq<Block>): seq<Fate>
    decreases |blocks|
  {
    if blocks == [] then []
    else
      var n := |blocks| - 1;
      OnRecord(blocks[..n]) + FatesOf(blocks[n])
  }

  function FatesOf(b: Block): seq<Fate> {
    [b.fates.entry] + if b.job.Configure? && Entered(b.fates) then b.fates.body + [b.fates.last] else []
  }

  function SoFar(lock: Lock): seq<Fate> {
    if lock.Free? || lock.holder.at.Start? || lock.holder.at.EntrySent? then []
    else [lock.holder.fates.entry] + lock.holder.fates.body
  }

  lemma OnRecordNext(blocks: seq<Block>, b: Block)
    ensures OnRecord(blocks + [b]) == OnRecord(blocks) + FatesOf(b)
  {
    assert (blocks + [b])[..|blocks|] == blocks;
  }

  /** The record of the call after a turn. */
  function RecordOf(t: Turn): seq<Fate> {
    if t.GoesOn? then SoFar(Held(t.h)) else FatesOf(Block(t.h.caller, t.h.job, t.h.fates, t.h.lines))
  }

  lemma TurnRecords(s: State, t: Turn)
    ensures var s' := TakeTurn(s, t); OnRecord(s'.blocks) + SoFar(s'.lock) == OnRecord(s.blocks) + RecordOf(t)
  {
    if t.Finishes? { OnRecordNext(s.blocks, Block(t.h.caller, t.h.job, t.h.fates, t.h.lines)); }
  }

  lemma WriteRecords(h: Holder, ok: bool)
    requires OnTrack(h) && CanWrite(h)
    ensures RecordOf(WriteTurn(h, ok)) == SoFar(Held(h)) + if ok then [] else [WriteFailed]
  {
  }

  lemma ReadRecords(h: Holder, fate: Fate)
    requires OnTrack(h) && !WantsToWrite(h.at)
    ensures RecordOf(ReadTurn(h, fate)) == SoFar(Held(h)) + [fate]
  {
  }

  lemma Regroup(p: seq<Fate>, q: seq<Fate>, r: seq<Fate>)
    ensures p + q + r == p + (q + r)
  {
  }

  lemma WiredRecords(device: Device, s: State, ok: bool)
    requires s.lock.Held? && OnTrack(s.lock.holder) && CanWrite(s.lock.holder)
    ensures
      var s' := StepWrite(device, s, s.lock.holder, ok);
      OnRecord(s'.blocks) + SoFar(s'.lock) == OnRecord(s.blocks) + (SoFar(s.lock) + if ok then [] else [WriteFailed])
  {
    var h := s.lock.holder;
    var wired :=
      if ok then s.(log := s.log + [Entry(h.caller, NextLine(h), s.depth)], depth := device(s.depth, NextLine(h)))
      else s.(connected := false);
    TurnRecords(wired, WriteTurn(h, ok));
    WriteRecords(h, ok);
  }

  /** What is on record is what happened: the fates by which the finished calls and the present one are judged are
      the results of all exchanges of the run, in order. */
  lemma {:induction false} RecordIsTrue(device: Device, s: State, es: seq<Event>)
    requires Inv(device, s)
    ensures
      var s' := Run(device, s, es);
      OnRecord(s'.blocks) + SoFar(s'.lock) == OnRecord(s.blocks) + SoFar(s.lock) + Exchanged(device, s, es)
    decreases |es|
  {
    if es != [] {
      var e, s1 := es[0], Step(device, s, es[0]);
      StepKeepsInv(device, s, e);
      if Enabled(s, e) && e.Write? {
        WiredRecords(device, s, e.ok);
      } else if Enabled(s, e) && e.Read? {
        TurnRecords(s, ReadTurn(s.lock.holder, e.fate));
        ReadRecords(s.lock.holder, e.fate);
      }
      Regroup(OnRecord(s.blocks), SoFar(s.lock), Came(s, e));
      assert OnRecord(s1.blocks) + SoFar(s1.lock) == OnRecord(s.blocks) + SoFar(s.lock) + Came(s, e);
      RecordIsTrue(device, s1, es[1..]);
      Regroup(OnRecord(s.blocks) + SoFar(s.lock), Came(s, e), Exchanged(device, s1, es[1..]));
    }
  }

  lemma StepConnection(device: Device, s: State, e: Event)
    ensures Step(device, s, e).connected <==> s.connected && WriteFailed !in Came(s, e)
  {
  }

  /** The connection is up exactly while no write has failed. */
  lemma {:induction false} ConnectedIff(device: Device, s: State, es: seq<Event>)
    ensures Run(device, s, es).connected <==> s.connected && WriteFailed !in Exchanged(device, s, es)
    decreases |es|
  {
    if es != [] {
      StepConnection(device, s, es[0]);
      ConnectedIff(device, Step(device, s, es[0]), es[1..]);
    }
  }

  // ------------------------------------------------------------ exec mode when free

  /** The call, started in exec mode, ends in exec mode. */
  predicate ReturnsToExec(device: Device, b: Block) {
    DepthOver(device, 0, b.lines) == 0
  }

  predicate AllReturn(device: Device, blocks: seq<Block>) {
    forall k :: 0 <= k < |blocks| ==> ReturnsToExec(device, blocks[k])
  }

  /** The log of the calls, each with the connection to itself and started in exec mode. */
  function Isolated(device: Device, blocks: seq<Block>): seq<Entry>
    decreases |blocks|
  {
    if blocks == [] then []
    else
      var n := |blocks| - 1;
      Isolated(device, blocks[..n]) + Alone(device, blocks[n].caller, 0, blocks[n].lines)
  }

  lemma {:induction false} SerialIsIsolated(device: Device, blocks: seq<Block>)
    requires AllReturn(device, blocks)
    ensures DepthAfterBlocks(device, blocks) == 0
    ensures Serial(device, blocks) == Isolated(device, blocks)
    decreases |blocks|
  {
    if blocks != [] {
      SerialIsIsolated(device, blocks[..|blocks| - 1]);
    }
  }

  /** As long as every finished call left the device in exec mode, so does the whole run whenever the lock is
      free, and every line was received in the mode it would meet if its caller were alone. */
  lemma ExecWhenFree(device: Device, es: seq<Event>)
    requires AllReturn(device, Run(device, INITIAL, es).blocks)
    ensures
      var s := Run(device, INITIAL, es);
      && (s.lock.Free? ==> s.depth == 0 && s.log == Isolated(device, s.blocks))
      && (s.lock.Held? ==>
            s.log == Isolated(device, s.blocks) + Alone(device, s.lock.holder.caller, 0, s.lock.holder.lines))
  {
    RunKeepsInv(device, INITIAL, es);
    var s := Run(device, INITIAL, es);
    SerialIsIsolated(device, s.blocks);
  }

  /** A batch does not leave configuration mode by itself. */
  predicate StaysInside(device: Device, commands: seq<string>) {
    forall k :: 0 <= k <= |commands| ==> DepthOver(device, device(0, ENTER), commands[..k]) != 0
  }

  /** The entry and `end` exchanges of a configuration call that matter for the mode it leaves behind. */
  predicate EntryAndEndSucceed(fates: Fates) {
    fates.entry.WriteFailed? || (Entered(fates) && !fates.last.WriteFailed?)
  }

  lemma BodyIsPrefix(commands: seq<string>, fates: seq<Fate>)
    ensures |BodyLines(commands, fates)| <= |commands|
    ensures BodyLines(commands, fates) == commands[..|BodyLines(commands, fates)|]
  {
    var k := Stop(fates, |commands|);
    if k < |commands| && k < |fates| {
      assert commands[..k + 1] == commands[..k] + [commands[k]];
    }
  }

  /** Mode after a configuration call that got as far as its batch. */
  lemma DepthAfterEntered(device: Device, commands: seq<string>, fates: Fates)
    requires EndLeaves(device) && Entered(fates)
    ensures DepthOver(device, 0, CallLines(Configure(commands), fates))
         == if fates.last.WriteFailed? then DepthOver(device, device(0, ENTER), BodyLines(commands, fates.body)) else 0
  {
    var body, last := BodyLines(commands, fates.body), Written(END, fates.last);
    DepthOverOne(device, 0, ENTER);
    DepthOverConcat(device, 0, [ENTER], body + last);
    DepthOverConcat(device, device(0, ENTER), body, last);
    DepthOverOne(device, DepthOver(device, device(0, ENTER), body), END);
  }

  /** Which configuration calls return to exec mode, whatever happens to their commands: those whose entry was
      never sent, or whose entry exchange succeeded and whose `end` was sent. No others do. */
  lemma ConfigureReturnsIff(device: Device, commands: seq<string>, fates: Fates)
    requires EndLeaves(device) && StaysInside(device, commands)
    ensures DepthOver(device, 0, CallLines(Configure(commands), fates)) == 0 <==> EntryAndEndSucceed(fates)
  {
    if Entered(fates) {
      BodyIsPrefix(commands, fates.body);
      DepthAfterEntered(device, commands, fates);
    } else if !fates.entry.WriteFailed? {
      assert CallLines(Configure(commands), fates) == [ENTER];
      DepthOverOne(device, 0, ENTER);
      assert commands[..0] == [];
      assert DepthOver(device, device(0, ENTER), commands[..0]) == device(0, ENTER);
    }
  }

  predicate IsSetting(line: string) { line != END && line != "exit" }

  /** One context, opened, filled and left with `exit`. */
  predicate IsContextBatch(commands: seq<string>) {
    && |commands| >= 2
    && OpensContext(commands[0]) && commands[0] != END && commands[0] != ENTER && commands[0] != "exit"
    && commands[|commands| - 1] == "exit"
    && forall k :: 1 <= k < |commands| - 1 ==> IsSetting(commands[k])
  }

  /** One setting of the global configuration. */
  predicate IsGlobalLine(commands: seq<string>) {
    |commands| == 1 && IsSetting(commands[0]) && !OpensContext(commands[0])
  }

  /** Every batch of the driver is made of contexts and global settings, one after another. */
  predicate IsPart(commands: seq<string>) { IsContextBatch(commands) || IsGlobalLine(commands) }

  predicate AreParts(parts: seq<seq<string>>) {
    forall k :: 0 <= k < |parts| ==> IsPart(parts[k])
  }

  function Concat(parts: seq<seq<string>>): seq<string>
    decreases |parts|
  {
    if parts == [] then [] else parts[0] + Concat(parts[1..])
  }

  lemma {:induction false} ContextDepth(commands: seq<string>, k: nat)
    requires IsContextBatch(commands) && 1 <= k < |commands|
    ensures DepthOver(ZteDepth, 1, commands[..k]) == 2
    decreases k
  {
    if k == 1 {
      assert commands[..1] == [commands[0]];
      DepthOverOne(ZteDepth, 1, commands[0]);
    } else {
      ContextDepth(commands, k - 1);
      assert commands[..k] == commands[..k - 1] + [commands[k - 1]];
      DepthOverConcat(ZteDepth, 1, commands[..k - 1], [commands[k - 1]]);
      DepthOverOne(ZteDepth, 2, commands[k - 1]);
    }
  }

  /** A context is never left early, and leaves global configuration mode behind. */
  lemma ContextBatchDepth(commands: seq<string>, k: nat)
    requires IsContextBatch(commands) && k <= |commands|
    ensures DepthOver(ZteDepth, 1, commands[..k]) == if 0 < k < |commands| then 2 else 1
  {
    if k == 0 {
      assert commands[..0] == [];
    } else if k < |commands| {
      ContextDepth(commands, k);
    } else {
      var n := |commands| - 1;
      ContextDepth(commands, n);
      assert commands[..k] == commands[..n] + ["exit"];
      DepthOverConcat(ZteDepth, 1, commands[..n], ["exit"]);
      DepthOverOne(ZteDepth, 2, "exit");
    }
  }

  lemma PartDepth(commands: seq<string>, k: nat)
    requires IsPart(commands) && k <= |commands|
    ensures DepthOver(ZteDepth, 1, commands[..k]) != 0
    ensures k == |commands| ==> DepthOver(ZteDepth, 1, commands[..k]) == 1
  {
    if IsContextBatch(commands) {
      ContextBatchDepth(commands, k);
    } else if k == 0 {
      assert commands[..0] == [];
    } else {
      assert commands[..k] == [commands[0]];
      DepthOverOne(ZteDepth, 1, commands[0]);
    }
  }

  lemma {:induction false} PartsDepth(parts: seq<seq<string>>, k: nat)
    requires AreParts(parts) && k <= |Concat(parts)|
    ensures DepthOver(ZteDepth, 1, Concat(parts)[..k]) != 0
    decreases |parts|
  {
    if parts != [] {
      var first, rest := parts[0], Concat(parts[1..]);
      assert AreParts(parts[1..]);
      if k <= |first| {
        assert Concat(parts)[..k] == first[..k];
        PartDepth(first, k);
      } else {
        assert Concat(parts)[..k] == first + rest[..k - |first|];
        DepthOverConcat(ZteDepth, 1, first, rest[..k - |first|]);
        assert first[..|first|] == first;
        PartDepth(first, |first|);
        PartsDepth(parts[1..], k - |first|);
      }
    }
  }

  lemma PartsStayInside(parts: seq<seq<string>>)
    requires AreParts(parts)
    ensures StaysInside(ZteDepth, Concat(parts))
  {
    forall k | 0 <= k <= |Concat(parts)| ensures DepthOver(ZteDepth, ZteDepth(0, ENTER), Concat(parts)[..k]) != 0 {
      PartsDepth(parts, k);
    }
  }

  /** So the exact condition holds of every batch of the driver on the ZTE command line. */
  lemma ZteConfigureReturnsIff(parts: seq<seq<string>>, fates: Fates)
    requires AreParts(parts)
    ensures DepthOver(ZteDepth, 0, CallLines(Configure(Concat(parts)), fates)) == 0 <==> EntryAndEndSucceed(fates)
  {
    ZteEndLeaves();
    PartsStayInside(parts);
    ConfigureReturnsIff(ZteDepth, Concat(parts), fates);
  }

  /** The batch that registers an ONU has one context, or two when there is a description. */
  function AuthorizeParts(
    olt: string, registration: string, onu: string, described: bool, description: string): seq<seq<string>>
  {
    [["interface " + olt, registration, "exit"]]
    + if described then [["interface " + onu, "description " + description, "exit"]] else []
  }

  lemma AuthorizeStaysInside(olt: string, registration: string, onu: string, described: bool, description: string)
    requires IsSetting(registration)
    ensures AreParts(AuthorizeParts(olt, registration, onu, described, description))
    ensures StaysInside(ZteDepth, Concat(AuthorizeParts(olt, registration, onu, described, description)))
  {
    InterfaceOpens(olt);
    InterfaceOpens(onu);
    assert ("description " + description)[0] == 'd';
    PartsStayInside(AuthorizeParts(olt, registration, onu, described, description));
  }

  lemma InterfaceOpens(name: string)
    ensures
      var line := "interface " + name;
      OpensContext(line) && line != END && line != ENTER && line != "exit"
  {
    assert ("interface " + name)[0] == 'i';
  }

  /** The batches of one global line: bandwidth profiles, traffic tables, and service ports without an ONU. */
  lemma GlobalLinesStayInside(line: string, rest: string)
    requires line == "gpon dba-profile add " + rest || line == "traffic-table ip index " + rest
      || line == "no service-port " + rest
    ensures IsGlobalLine([line]) && StaysInside(ZteDepth, Concat([[line]]))
  {
    assert line[0] != 'i' && line[0] != 'e' && line[0] != 'p';
    assert "interface "[0] == 'i' && "pon-onu-mng "[0] == 'p';
    PartsStayInside([[line]]);
  }

  /** The calls whose mode-changing exchanges went through. Commands in a batch may fail in any way. */
  predicate Undisturbed(device: Device, b: Block) {
    match b.job
    case Execute(command) => device(0, command) == 0
    case Configure(_) => EntryAndEndSucceed(b.fates)
  }

  /** The device is in exec mode whenever the lock is free, in every interleaving in which entry and `end`
      exchanges succeed, including when commands are rejected or lost in the middle of a batch. */
  lemma SafeInterleaving(device: Device, es: seq<Event>)
    requires EndLeaves(device)
    requires
      var s := Run(device, INITIAL, es);
      forall k :: 0 <= k < |s.blocks| ==> Undisturbed(device, s.blocks[k])
    ensures
      var s := Run(device, INITIAL, es);
      s.lock.Free? ==> s.depth == 0 && s.log == Isolated(device, s.blocks)
  {
    WholeBlocks(device, es);
    var s := Run(device, INITIAL, es);
    forall k | 0 <= k < |s.blocks| ensures ReturnsToExec(device, s.blocks[k]) {
      var b := s.blocks[k];
      assert Undisturbed(device, b);
      match b.job
      case Execute(command) => DepthOverOne(device, 0, command);
      case Configure(commands) =>
        if Entered(b.fates) { DepthAfterEntered(device, commands, b.fates); }
    }
    ExecWhenFree(device, es);
  }

  /** If the entry exchange fails after the line went out, nobody sends `end`: the next caller's query
      reaches the device in configuration mode. */
  lemma LostEntryLeavesConfigMode(command: string)
    ensures
      var s := Run(ZteDepth, INITIAL, [
        Request(1, Configure([])), Acquire(1), Write(true), Read(ReadFailed),
        Request(2, Execute(command)), Acquire(2), Write(true)]);
      s.log == [Entry(1, ENTER, 0), Entry(2, command, 1)]
  {
    var s1 := Step(ZteDepth, INITIAL, Request(1, Configure([])));
    var s2 := Step(ZteDepth, s1, Acquire(1));
    var s3 := Step(ZteDepth, s2, Write(true));
    var s4 := Step(ZteDepth, s3, Read(ReadFailed));
    assert s4.lock.Free? && s4.depth == 1 && s4.log == [Entry(1, ENTER, 0)];
    var s5 := Step(ZteDepth, s4, Request(2, Execute(command)));
    var s6 := Step(ZteDepth, s5, Acquire(2));
    var s7 := Step(ZteDepth, s6, Write(true));
    var es := [
        Request(1, Configure([])), Acquire(1), Write(true), Read(ReadFailed),
        Request(2, Execute(command)), Acquire(2), Write(true)];
    RunSteps(ZteDepth, INITIAL, es, [s1, s2, s3, s4, s5, s6, s7]);
  }

  lemma {:induction false} RunSteps(device: Device, s: State, es: seq<Event>, ss: seq<State>)
    requires |es| == |ss| > 0
    requires ss[0] == Step(device, s, es[0])
    requires forall k :: 0 < k < |es| ==> ss[k] == Step(device, ss[k - 1], es[k])
    ensures Run(device, s, es) == ss[|ss| - 1]
    decreases |es|
  {
    if |es| == 1 {
      assert es[1..] == [];
    } else {
      RunSteps(device, ss[0], es[1..], ss[1..]);
    }
  }

  // ------------------------------------------------------------- the lock is let go

  /** Exchanges the holder may still need before it releases the lock. */
  function StepsLeft(h: Holder): nat
    requires OnTrack(h)
  {
    var n := if h.job.Configure? then |h.job.commands| else 0;
    match h.at
    case Start => 2 * n + 4
    case EntrySent => 2 * n + 3
    case Body(k) => 2 * (n - k) + 2
    case BodySent(k) => 2 * (n - k) + 1
    case Ending => 2
    case EndSent => 1
  }

  predicate Nearer(t: Turn, h: Holder)
    requires GoodTurn(t) && OnTrack(h)
  {
    t.GoesOn? ==> StepsLeft(t.h) < StepsLeft(h)
  }

  /** The holder can always go on, and each of its exchanges brings the release nearer. */
  lemma LockIsLetGo(h: Holder, ok: bool, fate: Fate)
    requires OnTrack(h) && !fate.WriteFailed?
    ensures CanWrite(h) || !WantsToWrite(h.at)
    ensures CanWrite(h) ==> GoodTurn(WriteTurn(h, ok)) && Nearer(WriteTurn(h, ok), h)
    ensures !WantsToWrite(h.at) ==> GoodTurn(ReadTurn(h, fate)) && Nearer(ReadTurn(h, fate), h)
  {
    if CanWrite(h) {
      WriteTurnIsGood(h, ok);
    } else {
      ReadTurnIsGood(h, fate);
    }
  }

  /** On the ZTE command line in particular. */
  lemma ZteSafeInterleaving(es: seq<Event>)
    requires
      var s := Run(ZteDepth, INITIAL, es);
      forall k :: 0 <= k < |s.blocks| ==> Undisturbed(ZteDepth, s.blocks[k])
    ensures
      var s := Run(ZteDepth, INITIAL, es);
      s.lock.Free? ==> s.depth == 0 && s.log == Isolated(ZteDepth, s.blocks)
  {
    ZteEndLeaves();
    SafeInterleaving(ZteDepth, es);
  }
}
