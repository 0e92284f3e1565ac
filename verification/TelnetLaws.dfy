/** What the two scans of module Telnet guarantee for every byte string. */
module TelnetLaws {
  import opened Telnet

  // ---------------------------------------------------- framing of the strip

  /** Scanning from inside the payload finds its first end marker. */
  lemma {:induction false} SubEndFound(p: seq<byte>, rest: seq<byte>, i: nat)
    requires !HasEnd(p)
    requires 1 <= i <= |p| + 1
    ensures SubEnd([IAC, SB] + p + [IAC, SE] + rest, i) == |p| + 4
    decreases |p| - i + 1
  {
    var d := [IAC, SB] + p + [IAC, SE] + rest;
    assert |d| == |p| + 4 + |rest|;
    assert d[|p| + 2] == IAC && d[|p| + 3] == SE;
    if i <= |p| {
      assert d[i + 1] == p[i - 1];
      if i < |p| { assert d[i + 2] == p[i]; }
      SubEndFound(p, rest, i + 1);
    }
  }

  lemma StripSubnegotiation(p: seq<byte>, rest: seq<byte>)
    requires !HasEnd(p)
    ensures Strip([IAC, SB] + p + [IAC, SE] + rest) == Strip(rest)
  {
    var d := [IAC, SB] + p + [IAC, SE] + rest;
    SubEndFound(p, rest, 1);
    assert d[|p| + 4..] == rest;
  }

  lemma StripToken(t: Token, rest: seq<byte>)
    requires t.Valid()
    ensures Strip(t.Wire() + rest) == DataOf([t]) + Strip(rest)
  {
    var d := t.Wire() + rest;
    assert DataOf([t]) == if t.Data? then [t.b] else [];
    match t
    case Data(b) => assert d[1..] == rest;
    case Negotiation(cmd, opt) => assert d[3..] == rest;
    case Subnegotiation(p) => StripSubnegotiation(p, rest);
    case TwoByte(cmd) => assert d[2..] == rest;
  }

  /** Whole tokens strip to their data bytes, whatever bytes follow them. */
  lemma {:induction false} StripWholeTokens(ts: seq<Token>, rest: seq<byte>)
    requires AllValid(ts)
    ensures Strip(Wires(ts) + rest) == DataOf(ts) + Strip(rest)
  {
    if ts == [] {
      assert Wires(ts) + rest == rest;
    } else {
      assert Wires(ts) + rest == ts[0].Wire() + (Wires(ts[1..]) + rest);
      StripToken(ts[0], Wires(ts[1..]) + rest);
      StripWholeTokens(ts[1..], rest);
    }
  }

  /** On a stream of whole tokens the strip returns exactly the data bytes, in order. */
  lemma StripIsDataOf(ts: seq<Token>)
    requires AllValid(ts)
    ensures Strip(Wires(ts)) == DataOf(ts)
  {
    StripWholeTokens(ts, []);
    assert Wires(ts) + [] == Wires(ts);
  }

  /** The strip byte by byte: data is kept; IAC and DO, DONT, WILL or WONT take an option with them; IAC SB takes all
      up to the first IAC SE; IAC takes any other byte, a second IAC included. */
  lemma StripByBytes(b: byte, opt: byte, p: seq<byte>, rest: seq<byte>)
    ensures b != 255 ==> Strip([b] + rest) == [b] + Strip(rest)
    ensures 251 <= b <= 254 ==> Strip([255, b, opt] + rest) == Strip(rest)
    ensures !(250 <= b <= 254) ==> Strip([255, b] + rest) == Strip(rest)
    ensures (forall k :: 0 <= k < |p| - 1 ==> !(p[k] == 255 && p[k + 1] == 240)) ==>
      Strip([255, 250] + p + [255, 240] + rest) == Strip(rest)
  {
    if b != 255 { StripToken(Data(b), rest); }
    if 251 <= b <= 254 { StripToken(Negotiation(b, opt), rest); }
    if !(250 <= b <= 254) { StripToken(TwoByte(b), rest); }
    if !HasEnd(p) { StripSubnegotiation(p, rest); }
  }

  // -------------------------------------------- which chunk boundaries are safe

  /** The beginning of a token whose end has not arrived yet. */
  predicate Unfinished(r: seq<byte>) {
    && |r| > 0
    && r[0] == IAC
    && (|r| == 1
        || (|r| == 2 && IsNegotiation(r[1]))
        || (r[1] == SB && !HasEnd(r[2..])))
  }

  ghost predicate IsWhole(d: seq<byte>) {
    exists ts :: AllValid(ts) && Wires(ts) == d
  }

  lemma FirstEnd(p: seq<byte>) returns (k: nat)
    requires HasEnd(p)
    ensures k < |p| - 1 && p[k] == IAC && p[k + 1] == SE && !HasEnd(p[..k])
  {
    k := 0;
    while !(p[k] == IAC && p[k + 1] == SE)
      invariant k < |p| - 1
      invariant forall j :: 0 <= j < k ==> !(p[j] == IAC && p[j + 1] == SE)
      decreases |p| - k
    {
      var e :| 0 <= e < |p| - 1 && p[e] == IAC && p[e + 1] == SE;
      assert e > k;
      k := k + 1;
    }
  }

  /** A byte string that is neither empty nor unfinished starts with a whole token. */
  lemma NextToken(d: seq<byte>) returns (t: Token)
    requires d != [] && !Unfinished(d)
    ensures t.Valid() && 0 < |t.Wire()| <= |d| && t.Wire() == d[..|t.Wire()|]
  {
    if d[0] != IAC {
      t := Data(d[0]);
    } else if IsNegotiation(d[1]) {
      t := Negotiation(d[1], d[2]);
    } else if d[1] == SB {
      var p := d[2..];
      var k := FirstEnd(p);
      t := Subnegotiation(p[..k]);
      assert p[..k] + [IAC, SE] == p[..k + 2];
      assert t.Wire() == [IAC, SB] + (p[..k] + [IAC, SE]);
      assert d[..k + 4] == [IAC, SB] + p[..k + 2];
    } else {
      t := TwoByte(d[1]);
    }
  }

  /** Every byte string is whole tokens followed by nothing or by an unfinished token. */
  lemma {:induction false} Decompose(d: seq<byte>) returns (ts: seq<Token>, rest: seq<byte>)
    ensures AllValid(ts) && d == Wires(ts) + rest
    ensures rest == [] || Unfinished(rest)
    decreases |d|
  {
    if d == [] || Unfinished(d) {
      ts, rest := [], d;
    } else {
      var t := NextToken(d);
      var n := |t.Wire()|;
      var ts', rest' := Decompose(d[n..]);
      ts, rest := [t] + ts', rest';
      WiresCons(t, ts', rest', d);
    }
  }

  lemma WiresCons(t: Token, ts: seq<Token>, rest: seq<byte>, d: seq<byte>)
    requires |t.Wire()| <= |d| && t.Wire() == d[..|t.Wire()|] && d[|t.Wire()|..] == Wires(ts) + rest
    ensures d == Wires([t] + ts) + rest
  {
    assert ([t] + ts)[1..] == ts;
    assert d == t.Wire() + (Wires(ts) + rest);
  }

  lemma EndBefore(p: seq<byte>, q: seq<byte>)
    requires HasEnd(p)
    ensures HasEnd(p + q)
  {
    var k :| 0 <= k < |p| - 1 && p[k] == IAC && p[k + 1] == SE;
    assert (p + q)[k] == IAC && (p + q)[k + 1] == SE;
  }

  lemma EndBeforeData(p: seq<byte>, b: byte)
    requires b != SE && HasEnd(p + [b])
    ensures HasEnd(p)
  {
    var k :| 0 <= k < |p + [b]| - 1 && (p + [b])[k] == IAC && (p + [b])[k + 1] == SE;
    assert p[k] == IAC && p[k + 1] == SE;
  }

  /** With no end marker ahead the scan runs to the last byte. */
  lemma {:induction false} SubEndRunsOut(d: seq<byte>, i: nat)
    requires 1 <= i < |d| && !HasEnd(d[2..])
    ensures SubEnd(d, i) == |d| - 1
    decreases |d| - i
  {
    if i < |d| - 1 {
      var p := d[2..];
      assert d[i + 1] == p[i - 1];
      assert i + 2 < |d| ==> d[i + 2] == p[i];
      SubEndRunsOut(d, i + 1);
    }
  }

  /** An unterminated subnegotiation leaks its last byte unless that byte is IAC. */
  lemma StripUnterminated(r: seq<byte>)
    requires |r| >= 2 && r[0] == IAC && r[1] == SB && !HasEnd(r[2..])
    ensures Strip(r) == if r[|r| - 1] == IAC then [] else [r[|r| - 1]]
  {
    SubEndRunsOut(r, 1);
    assert r[|r| - 1..] == [r[|r| - 1]];
    assert Strip([r[|r| - 1]]) == if r[|r| - 1] == IAC then [] else [r[|r| - 1]] + Strip([]);
  }

  lemma StripOneToken(t: Token)
    requires t.Valid()
    ensures Strip(t.Wire()) == DataOf([t])
  {
    StripToken(t, []);
    assert t.Wire() + [] == t.Wire();
    assert DataOf([t]) + Strip([]) == DataOf([t]);
  }

  /** A trailing IAC becomes the closing pair with the next byte. */
  lemma UnterminatedIac(p: seq<byte>)
    requires p != [] && p[|p| - 1] == IAC && !HasEnd(p)
    ensures Strip([IAC, SB] + p + [SE]) == []
  {
    var q := p[..|p| - 1];
    assert p == q + [IAC];
    if HasEnd(q) {
      EndBefore(q, [IAC]);
      assert false;
    }
    StripOneToken(Subnegotiation(q));
    assert Subnegotiation(q).Wire() == [IAC, SB] + p + [SE];
  }

  /** One more byte still ends no payload, and only the last byte leaks. */
  lemma UnterminatedData(p: seq<byte>)
    requires !HasEnd(p)
    ensures Strip([IAC, SB] + p + [0]) == [0]
  {
    var d := [IAC, SB] + p + [0];
    if HasEnd(p + [0]) {
      EndBeforeData(p, 0);
      assert false;
    }
    assert d[2..] == p + [0];
    StripUnterminated(d);
  }

  lemma UnterminatedIsUnsafe(r: seq<byte>) returns (b: seq<byte>)
    requires |r| >= 2 && r[0] == IAC && r[1] == SB && !HasEnd(r[2..])
    ensures Strip(r + b) != Strip(r) + Strip(b)
  {
    var p := r[2..];
    assert r == [IAC, SB] + p;
    StripUnterminated(r);
    if r[|r| - 1] == IAC {
      b := [SE];
      UnterminatedIac(p);
    } else {
      b := [0];
      UnterminatedData(p);
    }
    StripOneToken(Data(b[0]));
  }

  /** After an unfinished token some continuation is stripped wrongly. */
  lemma UnfinishedIsUnsafe(r: seq<byte>) returns (b: seq<byte>)
    requires Unfinished(r)
    ensures Strip(r + b) != Strip(r) + Strip(b)
  {
    if |r| > 1 && r[1] == SB {
      b := UnterminatedIsUnsafe(r);
    } else {
      b := [SE];
      var t := if |r| == 1 then TwoByte(SE) else Negotiation(r[1], SE);
      assert t.Wire() == r + b;
      StripOneToken(t);
      StripOneToken(Data(SE));
    }
  }

  lemma WholeIsSafe(a: seq<byte>, b: seq<byte>)
    requires IsWhole(a)
    ensures Strip(a + b) == Strip(a) + Strip(b)
  {
    var ts :| AllValid(ts) && Wires(ts) == a;
    StripIsDataOf(ts);
    StripWholeTokens(ts, b);
  }

  lemma CancelBeforeSum(p: seq<byte>, x: seq<byte>, u: seq<byte>, v: seq<byte>)
    requires p + x == p + u + v
    ensures x == u + v
  {
    assert p + u + v == p + (u + v);
    CancelPrefix(p, x, u + v);
  }

  lemma SafeOnTheRest(ts: seq<Token>, r: seq<byte>, b: seq<byte>, x: seq<byte>, u: seq<byte>, v: seq<byte>)
    requires AllValid(ts)
    requires x == Strip(r + b) && u == Strip(r) && v == Strip(b)
    requires Strip(Wires(ts) + (r + b)) == Strip(Wires(ts) + r) + v
    ensures x == u + v
  {
    StripWholeTokens(ts, r);
    StripWholeTokens(ts, r + b);
    CancelBeforeSum(DataOf(ts), x, u, v);
  }

  lemma PartialIsUnsafe(a: seq<byte>) returns (b: seq<byte>)
    requires !IsWhole(a)
    ensures Strip(a + b) != Strip(a) + Strip(b)
  {
    var ts, rest := Decompose(a);
    assert rest == [] ==> Wires(ts) == a;
    b := UnfinishedIsUnsafe(rest);
    UnsafeBeyond(a, ts, rest, b);
  }

  lemma UnsafeBeyond(a: seq<byte>, ts: seq<Token>, r: seq<byte>, b: seq<byte>)
    requires AllValid(ts) && a == Wires(ts) + r
    requires Strip(r + b) != Strip(r) + Strip(b)
    ensures Strip(a + b) != Strip(a) + Strip(b)
  {
    Associate(Wires(ts), r, b);
    if Strip(a + b) == Strip(a) + Strip(b) {
      SafeOnTheRest(ts, r, b, Strip(r + b), Strip(r), Strip(b));
      assert false;
    }
  }

  /** Stripping chunk by chunk is right after `a` for every continuation if and only if `a` ends
      between tokens. */
  lemma ChunkBoundary(a: seq<byte>)
    ensures IsWhole(a) <==> forall b :: Strip(a + b) == Strip(a) + Strip(b)
  {
    if IsWhole(a) {
      forall b ensures Strip(a + b) == Strip(a) + Strip(b) {
        WholeIsSafe(a, b);
      }
    } else {
      var b := PartialIsUnsafe(a);
    }
  }

  lemma CancelPrefix(p: seq<byte>, x: seq<byte>, y: seq<byte>)
    requires p + x == p + y
    ensures x == y
  {
    assert x == (p + x)[|p|..];
    assert y == (p + y)[|p|..];
  }

  function Flatten(chunks: seq<seq<byte>>): seq<byte> {
    if chunks == [] then [] else chunks[0] + Flatten(chunks[1..])
  }

  function StripEach(chunks: seq<seq<byte>>): seq<byte> {
    if chunks == [] then [] else Strip(chunks[0]) + StripEach(chunks[1..])
  }

  /** A reader that strips each chunk as it arrives sees the stripped stream, as long as every chunk
      but the last ends between tokens. */
  lemma {:induction false} ChunkedRead(chunks: seq<seq<byte>>)
    requires forall k :: 0 <= k < |chunks| - 1 ==> IsWhole(chunks[k])
    ensures StripEach(chunks) == Strip(Flatten(chunks))
  {
    if |chunks| == 1 {
      assert Flatten(chunks) == chunks[0];
      assert StripEach(chunks) == Strip(chunks[0]);
    } else if chunks != [] {
      ChunkBoundary(chunks[0]);
      forall k | 0 <= k < |chunks[1..]| - 1 ensures IsWhole(chunks[1..][k]) {
        assert chunks[1..][k] == chunks[k + 1];
      }
      ChunkedRead(chunks[1..]);
    }
  }

  // ------------------------------------------------------ negotiation dies out

  /** The only blocks a response is ever made of. */
  datatype Answer = Announce | Refuse(cmd: byte, opt: byte)
  {
    predicate Valid() { Refuse? ==> cmd == WONT || cmd == DONT }

    function Wire(): seq<byte> {
      match this
      case Announce => NAWS_ANNOUNCE
      case Refuse(cmd, opt) => [IAC, cmd, opt]
    }
  }

  predicate ValidAnswers(xs: seq<Answer>) {
    forall k :: 0 <= k < |xs| ==> xs[k].Valid()
  }

  function AnswerWires(xs: seq<Answer>): seq<byte> {
    if xs == [] then [] else xs[0].Wire() + AnswerWires(xs[1..])
  }

  function AnswerTo(cmd: byte, opt: byte): (xs: seq<Answer>)
    ensures ValidAnswers(xs) && AnswerWires(xs) == Reply(cmd, opt)
  {
    var xs := if cmd == DO && opt == NAWS then [Announce]
              else if cmd == DO then [Refuse(WONT, opt)]
              else if cmd == WILL then [Refuse(DONT, opt)]
              else [];
    assert |xs| == 1 ==> AnswerWires(xs) == xs[0].Wire() + [];
    xs
  }

  lemma {:induction false} AnswerWiresConcat(xs: seq<Answer>, ys: seq<Answer>)
    ensures AnswerWires(xs + ys) == AnswerWires(xs) + AnswerWires(ys)
  {
    if xs == [] {
      assert xs + ys == ys;
    } else {
      assert (xs + ys)[1..] == xs[1..] + ys;
      AnswerWiresConcat(xs[1..], ys);
    }
  }

  /** Round one: any input is answered with window announcements, WONT and DONT only. */
  lemma {:induction false} FirstRound(d: seq<byte>) returns (xs: seq<Answer>)
    ensures ValidAnswers(xs) && Respond(d) == AnswerWires(xs)
    decreases |d|
  {
    if d == [] {
      xs := [];
    } else if d[0] == IAC && |d| > 2 {
      var ys := FirstRound(d[3..]);
      xs := AnswerTo(d[1], d[2]) + ys;
      AnswerWiresConcat(AnswerTo(d[1], d[2]), ys);
    } else {
      xs := FirstRound(d[1..]);
    }
  }

  /** `n` refusals of the peer's window-size option. */
  function DontNaws(n: nat): seq<byte> {
    if n == 0 then [] else [IAC, DONT, NAWS] + DontNaws(n - 1)
  }

  function Announcements(xs: seq<Answer>): nat {
    if xs == [] then 0 else (if xs[0].Announce? then 1 else 0) + Announcements(xs[1..])
  }

  /** Round two, entered `k` bytes into the blocks: after an announcement's IAC SE, or an option byte that
      is itself IAC, the scan is off by one or two bytes, but never answers anything except WILL NAWS. */
  lemma {:induction false} SecondRound(xs: seq<Answer>, k: nat) returns (n: nat)
    requires ValidAnswers(xs) && k <= 2 && (k > 0 ==> xs != [])
    ensures Respond(AnswerWires(xs)[k..]) == DontNaws(n)
    ensures n <= Announcements(xs)
    decreases |xs|, 2 - k
  {
    if xs == [] { return 0; }
    if xs[0].Announce? {
      n := AfterAnnounce(xs, k);
    } else {
      var tail := AnswerWires(xs[1..]);
      if xs[1..] != [] { StartOfBlocks(xs[1..]); }
      RefusalEntered(xs[0].cmd, xs[0].opt, tail, k);
      if k == 1 {
        n := SecondRound(xs, 2);
      } else if k == 2 && xs[0].opt == IAC && tail != [] {
        n := SecondRound(xs[1..], 2);
      } else {
        assert tail[0..] == tail;
        n := SecondRound(xs[1..], 0);
      }
    }
  }

  /** A refusal entered at any of its bytes: its option may be taken for an IAC. */
  lemma RefusalEntered(cmd: byte, opt: byte, tail: seq<byte>, k: nat)
    requires (cmd == WONT || cmd == DONT) && k <= 2
    requires tail != [] ==> |tail| >= 3 && tail[0] == IAC
    ensures
      var d := [IAC, cmd, opt] + tail;
      Respond(d[k..]) ==
      if k == 1 then Respond(d[2..])
      else if k == 2 && opt == IAC && tail != [] then Respond(tail[2..])
      else Respond(tail)
  {
    var d := [IAC, cmd, opt] + tail;
    if k == 0 {
      assert d[0..] == d && d[3..] == tail;
    } else if k == 1 {
      assert d[1..][1..] == d[2..];
    } else {
      assert d[2..] == [opt] + tail;
      OptionEntered(opt, tail);
    }
  }

  lemma OptionEntered(opt: byte, tail: seq<byte>)
    requires tail != [] ==> |tail| >= 3 && tail[0] == IAC
    ensures Respond([opt] + tail) == if opt == IAC && tail != [] then Respond(tail[2..]) else Respond(tail)
  {
    var d := [opt] + tail;
    assert d[1..] == tail;
    if opt == IAC && tail != [] {
      assert d[3..] == tail[2..];
      assert Reply(d[1], d[2]) == [];
    }
  }

  lemma StartOfBlocks(xs: seq<Answer>)
    requires xs != []
    ensures |AnswerWires(xs)| >= 3 && AnswerWires(xs)[0] == IAC
  {
  }

  /** The IAC SE that closes an announcement takes the next block's first byte with it. */
  lemma {:induction false} ClosingPair(xs: seq<Answer>) returns (n: nat)
    requires ValidAnswers(xs)
    ensures Respond([IAC, SE] + AnswerWires(xs)) == DontNaws(n)
    ensures n <= Announcements(xs)
    decreases |xs|, 3
  {
    var tail := AnswerWires(xs);
    var closing := [IAC, SE] + tail;
    if xs == [] {
      n := 0;
      assert closing[1..] == [SE];
      assert Respond([SE]) == Respond([]);
    } else {
      StartOfBlocks(xs);
      assert Reply(closing[1], closing[2]) == [];
      assert closing[3..] == tail[1..];
      n := SecondRound(xs, 1);
    }
  }

  lemma AnnounceBody(closing: seq<byte>)
    ensures Respond([IAC, SB, NAWS] + ([0, 200, 0, 50] + closing)) == Respond(closing)
  {
    var body := [IAC, SB, NAWS] + ([0, 200, 0, 50] + closing);
    assert body[3..] == [0, 200, 0, 50] + closing;
    PlainPrefix([0, 200, 0, 50], closing);
  }

  /** An announcement entered at its start is refused once; entered late, not at all. */
  lemma {:induction false} AfterAnnounce(xs: seq<Answer>, k: nat) returns (n: nat)
    requires ValidAnswers(xs) && k <= 2 && xs != [] && xs[0].Announce?
    ensures Respond(AnswerWires(xs)[k..]) == DontNaws(n)
    ensures n <= Announcements(xs)
    decreases |xs|, -1
  {
    var closing := [IAC, SE] + AnswerWires(xs[1..]);
    var m := ClosingPair(xs[1..]);
    AnnounceBody(closing);
    AnnounceEntered(xs, closing, k);
    n := if k == 0 then m + 1 else m;
  }

  lemma AnnounceWire(tail: seq<byte>)
    ensures NAWS_ANNOUNCE + tail
         == [IAC, WILL, NAWS] + ([IAC, SB, NAWS] + ([0, 200, 0, 50] + ([IAC, SE] + tail)))
  {
  }

  lemma AnnounceEntered(xs: seq<Answer>, closing: seq<byte>, k: nat)
    requires xs != [] && xs[0].Announce? && k <= 2
    requires closing == [IAC, SE] + AnswerWires(xs[1..])
    ensures
      var body := Respond([IAC, SB, NAWS] + ([0, 200, 0, 50] + closing));
      Respond(AnswerWires(xs)[k..]) == if k == 0 then [IAC, DONT, NAWS] + body else body
  {
    AnnounceWire(AnswerWires(xs[1..]));
    AfterHeader([IAC, SB, NAWS] + ([0, 200, 0, 50] + closing), k);
  }

  lemma AfterHeader(body: seq<byte>, k: nat)
    requires k <= 2
    ensures Respond(([IAC, WILL, NAWS] + body)[k..])
         == if k == 0 then [IAC, DONT, NAWS] + Respond(body) else Respond(body)
  {
    var d := ([IAC, WILL, NAWS] + body)[k..];
    if k == 0 {
      RespondToWill(body);
      assert d == [IAC, WILL, NAWS] + body;
    } else if k == 1 {
      PlainPrefix([WILL, NAWS], body);
      assert d == [WILL, NAWS] + body;
    } else {
      PlainPrefix([NAWS], body);
      assert d == [NAWS] + body;
    }
  }

  lemma RespondToWill(body: seq<byte>)
    ensures Respond([IAC, WILL, NAWS] + body) == [IAC, DONT, NAWS] + Respond(body)
  {
    var d := [IAC, WILL, NAWS] + body;
    assert d[3..] == body;
  }

  lemma {:induction false} PlainPrefix(p: seq<byte>, rest: seq<byte>)
    requires IAC !in p
    ensures Respond(p + rest) == Respond(rest)
  {
    if p == [] {
      assert p + rest == rest;
    } else {
      assert (p + rest)[1..] == p[1..] + rest;
      PlainPrefix(p[1..], rest);
    }
  }

  /** Round three: a refusal is not answered. */
  lemma {:induction false} ThirdRound(n: nat)
    ensures Respond(DontNaws(n)) == []
  {
    if n > 0 {
      assert DontNaws(n)[3..] == DontNaws(n - 1);
      ThirdRound(n - 1);
    }
  }

  /** Two ends running this responder against each other stop after three rounds, whatever was sent first. */
  lemma NegotiationDiesOut(d: seq<byte>)
    ensures Respond(Respond(Respond(d))) == []
  {
    var xs := FirstRound(d);
    var n := SecondRound(xs, 0);
    assert AnswerWires(xs)[0..] == AnswerWires(xs);
    ThirdRound(n);
  }

  /** Three is the exact number: DO NAWS still has a reply in round two. */
  lemma TwoRoundsAreNotEnough()
    ensures Respond(Respond([IAC, DO, NAWS])) == [IAC, DONT, NAWS]
  {
    var d := [IAC, DO, NAWS];
    assert d[3..] == [];
    assert Respond(d) == NAWS_ANNOUNCE + Respond([]);
    var n := AfterAnnounce([Announce], 0);
    assert AnswerWires([Announce]) == NAWS_ANNOUNCE;
    assert AnswerWires([Announce])[0..] == NAWS_ANNOUNCE;
    assert Announcements([Announce]) == 1;
    assert Respond(NAWS_ANNOUNCE) == [IAC, DONT, NAWS] + Respond(NAWS_ANNOUNCE[3..]);
    assert n == 1;
    assert DontNaws(1) == [IAC, DONT, NAWS] + DontNaws(0);
  }

  // ------------------------------------------------------- replies carry no data

  function TokensOf(x: Answer): seq<Token> {
    match x
    case Announce => [Negotiation(WILL, NAWS), Subnegotiation([NAWS, 0, 200, 0, 50])]
    case Refuse(cmd, opt) => [Negotiation(cmd, opt)]
  }

  lemma {:induction false} AnswersStripToNothing(xs: seq<Answer>)
    requires ValidAnswers(xs)
    ensures Strip(AnswerWires(xs)) == []
  {
    if xs != [] {
      var ts, tail := TokensOf(xs[0]), AnswerWires(xs[1..]);
      assert Wires(ts) == xs[0].Wire() by {
        if xs[0].Announce? {
          assert Wires(ts[1..]) == ts[1].Wire() + Wires([]);
        } else {
          assert Wires(ts) == ts[0].Wire() + Wires([]);
        }
      }
      StripWholeTokens(ts, tail);
      assert DataOf(ts) == [] by {
        assert xs[0].Announce? ==> DataOf(ts[1..]) == DataOf([]);
      }
      AnswersStripToNothing(xs[1..]);
    }
  }

  /** What is sent back is control bytes only, even when option bytes are themselves 0xFF. */
  lemma RepliesCarryNoData(d: seq<byte>)
    ensures Strip(Respond(d)) == []
  {
    var xs := FirstRound(d);
    AnswersStripToNothing(xs);
  }

  // ------------------------------------------------------ which requests are answered

  /** The answer each token calls for, byte by byte: every WILL is refused with DONT and every DO with WONT, except
      DO NAWS, which is agreed to with the window of 200 columns by 50 rows. Nothing else is answered. */
  function AnswerOf(t: Token): seq<byte> {
    match t
    case Negotiation(cmd, opt) =>
      if cmd == 251 then [255, 254, opt]
      else if cmd == 253 && opt == 31 then [255, 251, 31, 255, 250, 31, 0, 200, 0, 50, 255, 240]
      else if cmd == 253 then [255, 252, opt]
      else []
    case _ => []
  }

  /** A DO or a WILL. */
  predicate IsRequest(t: Token) { t.Negotiation? && (t.cmd == 253 || t.cmd == 251) }

  lemma ReplyAnswers(cmd: byte, opt: byte)
    ensures Reply(cmd, opt) == AnswerOf(Negotiation(cmd, opt))
  {
  }

  /** What a responder that kept its place would send. */
  function Answers(ts: seq<Token>): seq<byte> {
    if ts == [] then []
    else AnswerOf(ts[0]) + Answers(ts[1..])
  }

  /** The responder steps three bytes at every IAC. It swallows the byte after a two-byte command, and the byte
      after the IAC SE that closes a subnegotiation, unless that IAC was itself swallowed or is taken with the IAC SB
      that an empty payload follows. A token is entered late when its first byte is swallowed like that. */
  predicate LateAfter(t: Token, late: bool) {
    match t
    case TwoByte(_) => !late
    case Subnegotiation(p) => late || p != []
    case _ => false
  }

  /** Some DO or WILL is entered late. */
  predicate LosesRequest(ts: seq<Token>, late: bool)
    decreases |ts|
  {
    ts != [] && ((late && IsRequest(ts[0])) || LosesRequest(ts[1..], LateAfter(ts[0], late)))
  }

  /** The answers to the requests that are not entered late. */
  function Answered(ts: seq<Token>, late: bool): seq<byte>
    decreases |ts|
  {
    if ts == [] then []
    else (if late then [] else AnswerOf(ts[0])) + Answered(ts[1..], LateAfter(ts[0], late))
  }

  /** No IAC where the responder could take it for the start of a command: none in a payload, and none as option
      or second byte of a token entered late. */
  predicate NoStrayIac(ts: seq<Token>, late: bool)
    decreases |ts|
  {
    ts == [] || (NoStrayIacIn(ts[0], late) && NoStrayIac(ts[1..], LateAfter(ts[0], late)))
  }

  predicate NoStrayIacIn(t: Token, late: bool) {
    match t
    case Negotiation(_, opt) => late ==> opt != IAC
    case TwoByte(cmd) => late ==> cmd != IAC
    case Subnegotiation(p) => IAC !in p
    case Data(_) => true
  }

  /** What is left of the stream for a responder that is late, or not. */
  function LeftOf(ts: seq<Token>, late: bool): seq<byte> {
    var w := Wires(ts);
    if late && w != [] then w[1..] else w
  }

  lemma PairSwallows(cmd: byte, ts: seq<Token>)
    requires cmd != DO && cmd != WILL
    ensures Respond([IAC, cmd] + Wires(ts)) == Respond(LeftOf(ts, true))
  {
    var w := Wires(ts);
    var d := [IAC, cmd] + w;
    if w == [] {
      assert d == [IAC, cmd] && d[1..] == [cmd];
      assert Respond([cmd]) == Respond([]);
    } else {
      assert d[3..] == w[1..];
    }
  }

  lemma RespondSubnegotiation(p: seq<byte>, ts: seq<Token>)
    requires IAC !in p
    ensures Respond([IAC, SB] + p + [IAC, SE] + Wires(ts)) == Respond(LeftOf(ts, p != []))
  {
    var tail := Wires(ts);
    if p == [] {
      RegroupEmpty(IAC, SB, IAC, SE, tail);
      RespondSkips([IAC, SB, IAC], [SE] + tail);
      PlainPrefix([SE], tail);
    } else {
      var q, closing := p[1..], [IAC, SE] + tail;
      Regroup(IAC, SB, p, [IAC, SE], tail);
      RespondSkips([IAC, SB, p[0]], q + closing);
      PlainPrefix(q, closing);
      PairSwallows(SE, ts);
    }
  }

  lemma Regroup<T>(a: T, b: T, p: seq<T>, e: seq<T>, tail: seq<T>)
    requires p != []
    ensures [a, b] + p + e + tail == [a, b, p[0]] + (p[1..] + (e + tail))
  {
  }

  lemma RegroupEmpty<T>(a: T, b: T, c: T, d: T, tail: seq<T>)
    ensures [a, b] + [] + [c, d] + tail == [a, b, c] + ([d] + tail)
  {
  }

  lemma RespondSkips(head: seq<byte>, rest: seq<byte>)
    requires |head| == 3 && head[0] == IAC && head[1] == SB
    ensures Respond(head + rest) == Respond(rest)
  {
    assert (head + rest)[3..] == rest;
  }

  /** A token entered in step. */
  lemma RespondInStep(t: Token, ts: seq<Token>)
    requires t.Valid() && NoStrayIacIn(t, false)
    ensures Respond(t.Wire() + Wires(ts)) == AnswerOf(t) + Respond(LeftOf(ts, LateAfter(t, false)))
  {
    var d := t.Wire() + Wires(ts);
    match t
    case Data(b) => assert d[1..] == Wires(ts);
    case Negotiation(cmd, opt) =>
      assert d[3..] == Wires(ts);
      ReplyAnswers(cmd, opt);
    case TwoByte(cmd) => PairSwallows(cmd, ts);
    case Subnegotiation(p) => RespondSubnegotiation(p, ts);
  }

  /** A token entered late: nothing of it is answered. */
  lemma RespondLate(t: Token, ts: seq<Token>)
    requires t.Valid() && NoStrayIacIn(t, true)
    ensures Respond((t.Wire() + Wires(ts))[1..]) == Respond(LeftOf(ts, LateAfter(t, true)))
  {
    var w := Wires(ts);
    var d := (t.Wire() + w)[1..];
    match t
    case Data(b) => assert d == w;
    case Negotiation(cmd, opt) =>
      assert d == [cmd, opt] + w;
      PlainPrefix([cmd, opt], w);
    case TwoByte(cmd) =>
      assert d == [cmd] + w;
      PlainPrefix([cmd], w);
    case Subnegotiation(p) =>
      SubnegotiationLate(p, ts);
  }

  lemma SubnegotiationLate(p: seq<byte>, ts: seq<Token>)
    requires IAC !in p
    ensures Respond(([IAC, SB] + p + [IAC, SE] + Wires(ts))[1..]) == Respond(LeftOf(ts, true))
  {
    var closing := [IAC, SE] + Wires(ts);
    WithoutFirst(IAC, SB, p, [IAC, SE], Wires(ts));
    PlainPrefix([SB] + p, closing);
    PairSwallows(SE, ts);
  }

  lemma WithoutFirst<T>(a: T, b: T, p: seq<T>, e: seq<T>, tail: seq<T>)
    ensures ([a, b] + p + e + tail)[1..] == ([b] + p) + (e + tail)
  {
  }

  /** What is answered: in order, exactly the requests that are not entered late. */
  lemma {:induction false} AnswersTheRest(ts: seq<Token>, late: bool)
    requires AllValid(ts) && NoStrayIac(ts, late)
    ensures Respond(LeftOf(ts, late)) == Answered(ts, late)
    decreases |ts|
  {
    if ts != [] {
      var t, rest := ts[0], ts[1..];
      assert Wires(ts) == t.Wire() + Wires(rest) && Wires(ts) != [];
      AnswersTheRest(rest, LateAfter(t, late));
      if late { RespondLate(t, rest); } else { RespondInStep(t, rest); }
    }
  }

  lemma {:induction false} LossIsShorter(ts: seq<Token>, late: bool)
    ensures if LosesRequest(ts, late) then |Answered(ts, late)| < |Answers(ts)| else Answered(ts, late) == Answers(ts)
    decreases |ts|
  {
    if ts != [] { LossIsShorter(ts[1..], LateAfter(ts[0], late)); }
  }

  /** Every DO and WILL is answered, once and in order and with nothing else, if and only if none is entered late. */
  lemma AnswersAllIff(ts: seq<Token>)
    requires AllValid(ts) && NoStrayIac(ts, false)
    ensures Respond(Wires(ts)) == Answers(ts) <==> !LosesRequest(ts, false)
  {
    AnswersTheRest(ts, false);
    LossIsShorter(ts, false);
  }

  predicate PlainPayloads(ts: seq<Token>) {
    forall k :: 0 <= k < |ts| && ts[k].Subnegotiation? ==> IAC !in ts[k].payload
  }

  /** Only data follows what swallows a byte. */
  predicate KeepsFraming(ts: seq<Token>) {
    forall k :: 0 <= k < |ts| - 1 ==>
      (ts[k].TwoByte? || (ts[k].Subnegotiation? && ts[k].payload != [])) ==> ts[k + 1].Data?
  }

  lemma {:induction false} FramingLosesNothing(ts: seq<Token>, late: bool)
    requires KeepsFraming(ts) && PlainPayloads(ts) && (late && ts != [] ==> ts[0].Data?)
    ensures NoStrayIac(ts, late) && !LosesRequest(ts, late)
    decreases |ts|
  {
    if ts != [] {
      var rest := ts[1..];
      assert forall k :: 0 <= k < |rest| ==> rest[k] == ts[k + 1];
      FramingLosesNothing(rest, LateAfter(ts[0], late));
    }
  }

  /** On data and negotiations alone, option 0xFF included, and wherever only data follows what swallows a byte,
      every request is answered. */
  lemma AnswersEveryRequest(ts: seq<Token>)
    requires AllValid(ts) && KeepsFraming(ts) && PlainPayloads(ts)
    ensures Respond(Wires(ts)) == Answers(ts)
  {
    FramingLosesNothing(ts, false);
    AnswersAllIff(ts);
  }

  /** A DO right after a subnegotiation is lost. */
  lemma LostRequest()
    ensures
      var ts := [Subnegotiation([0x18, 0]), Negotiation(DO, 1)];
      AllValid(ts) && Respond(Wires(ts)) == [] && Answers(ts) == [255, 252, 1]
  {
    var ts := [Subnegotiation([0x18, 0]), Negotiation(DO, 1)];
    assert ts[1..] == [Negotiation(DO, 1)] && ts[1..][1..] == [];
    AnswersTheRest(ts, false);
    assert Answered(ts, false) == Answered(ts[1..], true) == Answered([], false) == [];
    assert Answers(ts) == Answers(ts[1..]) == [255, 252, 1] + Answers([]);
  }
}
