/**
 The Telnet byte layer: answering option negotiation and stripping control
 sequences (RFC 854, RFC 855 and section 2 of RFC 1073).

 `Respond` and `Strip` are the two scans; `RespondIac` and `StripIac` are the
 loops that compute them. The partner of both is the token grammar `Token`.
 */
module Telnet {

  newtype byte = x: int | 0 <= x < 0x100

  const IAC: byte := 0xFF
  const DONT: byte := 0xFE
  const DO: byte := 0xFD
  const WONT: byte := 0xFC
  const WILL: byte := 0xFB
  const SB: byte := 0xFA
  const SE: byte := 0xF0
  const NAWS: byte := 0x1F
  const NAWS_ANNOUNCE: seq<byte> := [IAC, WILL, NAWS, IAC, SB, NAWS, 0, 200, 0, 50, IAC, SE]

  // ---------------------------------------------------------------- grammar

  /** What a Telnet stream is made of. */
  datatype Token =
    | Data(b: byte)
    | Negotiation(cmd: byte, opt: byte)
    | Subnegotiation(payload: seq<byte>)
    | TwoByte(cmd: byte)
  {
    predicate Valid() {
      match this
      case Data(b) => b != IAC
      case Negotiation(cmd, _) => IsNegotiation(cmd)
      case Subnegotiation(p) => !HasEnd(p)
      case TwoByte(cmd) => !IsNegotiation(cmd) && cmd != SB
    }

    function Wire(): (w: seq<byte>)
    {
      match this
      case Data(b) => [b]
      case Negotiation(cmd, opt) => [IAC, cmd, opt]
      case Subnegotiation(p) => [IAC, SB] + p + [IAC, SE]
      case TwoByte(cmd) => [IAC, cmd]
    }
  }

  predicate IsNegotiation(cmd: byte) {
    cmd == DO || cmd == DONT || cmd == WILL || cmd == WONT
  }

  /** The payload itself contains the closing pair. */
  predicate HasEnd(p: seq<byte>) {
    exists k :: 0 <= k < |p| - 1 && p[k] == IAC && p[k + 1] == SE
  }

  predicate AllValid(ts: seq<Token>) {
    forall k :: 0 <= k < |ts| ==> ts[k].Valid()
  }

  function Wires(ts: seq<Token>): seq<byte> {
    if ts == [] then [] else ts[0].Wire() + Wires(ts[1..])
  }

  function DataOf(ts: seq<Token>): seq<byte> {
    if ts == [] then []
    else (if ts[0].Data? then [ts[0].b] else []) + DataOf(ts[1..])
  }

  // ------------------------------------------------------------------ strip

  /** Index just after the subnegotiation that starts at `d[0..2]`, as scanned from `i`. */
  function SubEnd(d: seq<byte>, i: nat): (j: nat)
    requires 1 <= i < |d|
    ensures i <= j <= |d|
    decreases |d| - i
  {
    if i == |d| - 1 then i
    else if d[i + 1] == IAC && i + 2 < |d| && d[i + 2] == SE then i + 3
    else SubEnd(d, i + 1)
  }

  function Strip(d: seq<byte>): seq<byte>
    decreases |d|
  {
    if d == [] then []
    else if d[0] != IAC then [d[0]] + Strip(d[1..])
    else if |d| == 1 then []
    else if IsNegotiation(d[1]) then (if |d| <= 3 then [] else Strip(d[3..]))
    else if d[1] == SB then Strip(d[SubEnd(d, 1)..])
    else Strip(d[2..])
  }

  /** One turn of the outer loop: what is kept, and how far the scan moves (possibly past the end). */
  function StripStep(d: seq<byte>): (seq<byte>, nat)
    requires d != []
  {
    if d[0] != IAC then ([d[0]], 1)
    else if |d| == 1 then ([], 1)
    else if IsNegotiation(d[1]) then ([], 3)
    else if d[1] == SB then ([], SubEnd(d, 1))
    else ([], 2)
  }

  ghost function StripFrom(data: seq<byte>, i: nat): seq<byte> {
    if i <= |data| then Strip(data[i..]) else []
  }

  lemma Advance(data: seq<byte>, i: nat, kept: seq<byte>)
    requires i < |data|
    ensures
      var (keep, n) := StripStep(data[i..]);
      kept + StripFrom(data, i) == kept + keep + StripFrom(data, i + n)
  {
    var d := data[i..];
    var (keep, n) := StripStep(d);
    StepStrips(d);
    if i + n <= |data| {
      Slices(data, i, n);
    }
    Associate(kept, keep, StripFrom(data, i + n));
  }

  lemma StepStrips(d: seq<byte>)
    requires d != []
    ensures var (keep, n) := StripStep(d); Strip(d) == keep + (if n <= |d| then Strip(d[n..]) else [])
  {
    if d[0] == IAC && |d| == 1 {
      assert d[1..] == [];
    } else if d[0] == IAC && |d| == 3 && IsNegotiation(d[1]) {
      assert d[3..] == [];
    }
  }

  lemma Slices<T>(s: seq<T>, i: nat, n: nat)
    requires i + n <= |s|
    ensures s[i..][n..] == s[i + n..]
  {
  }

  lemma Associate<T>(p: seq<T>, q: seq<T>, r: seq<T>)
    ensures p + q + r == p + (q + r)
  {
  }

  method StripIac(data: seq<byte>) returns (out: seq<byte>)
    ensures out == Strip(data)
  {
    out := [];
    var i := 0;
    while i < |data|
      invariant 0 <= i <= |data| + 1
      invariant out + StripFrom(data, i) == StripFrom(data, 0)
    {
      ghost var start, kept, step := i, out, StripStep(data[i..]);
      Advance(data, i, out);
      var b := data[i];
      if b == IAC {
        i := i + 1;
        if i >= |data| { break; }
        var cmd := data[i];
        if IsNegotiation(cmd) {
          i := i + 2;
        } else if cmd == SB {
          i := SkipSubnegotiation(data, i, start);
        } else {
          i := i + 1;
        }
      } else {
        out := out + [b];
        i := i + 1;
      }
      assert i == start + step.1 && out == kept + step.0;
    }
    assert data[0..] == data;
  }

  /** The inner loop of the strip: from the SB byte at `from` to just after IAC SE. */
  method SkipSubnegotiation(data: seq<byte>, from: nat, ghost start: nat) returns (i: nat)
    requires start + 1 == from < |data|
    ensures i == start + SubEnd(data[start..], 1)
  {
    i := from;
    ghost var d := data[start..];
    while i < |data| - 1
      invariant from <= i < |data|
      invariant SubEnd(d, 1) == SubEnd(d, i - start)
    {
      i := i + 1;
      if data[i] == IAC && i + 1 < |data| && data[i + 1] == SE {
        i := i + 2;
        break;
      }
    }
  }

  // ---------------------------------------------------------------- respond

  function Reply(cmd: byte, opt: byte): seq<byte> {
    if cmd == DO && opt == NAWS then NAWS_ANNOUNCE
    else if cmd == DO then [IAC, WONT, opt]
    else if cmd == WILL then [IAC, DONT, opt]
    else []
  }

  function Respond(d: seq<byte>): seq<byte>
    decreases |d|
  {
    if d == [] then []
    else if d[0] == IAC && |d| > 2 then Reply(d[1], d[2]) + Respond(d[3..])
    else Respond(d[1..])
  }

  method RespondIac(data: seq<byte>) returns (resp: seq<byte>)
    ensures resp == Respond(data)
  {
    resp := [];
    var i := 0;
    while i < |data|
      invariant 0 <= i <= |data|
      invariant resp + Respond(data[i..]) == Respond(data)
    {
      ghost var sent := resp;
      if data[i] == IAC && i + 2 < |data| {
        var cmd, opt := data[i + 1], data[i + 2];
        if cmd == DO && opt == NAWS {
          // the window size is offered and sent at once
          resp := resp + [IAC, WILL, NAWS];
          resp := resp + [IAC, SB, NAWS, 0, 200, 0, 50, IAC, SE];
        } else if cmd == DO {
          resp := resp + [IAC, WONT, opt];
        } else if cmd == WILL {
          resp := resp + [IAC, DONT, opt];
        }
        assert resp == sent + Reply(cmd, opt);
        Slices(data, i, 3);
        Associate(sent, Reply(cmd, opt), Respond(data[i + 3..]));
        i := i + 3;
      } else {
        Slices(data, i, 1);
        i := i + 1;
      }
    }
  }
}
