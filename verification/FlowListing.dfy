/**
 The VLANs that an ONU's running configuration lists for flow 1: the expression
 that finds them anywhere in the text, and the lines it reads.
 */
module FlowListing {
  import opened Options
  import opened Text
  import opened LinePatterns

  const FLOW_1 := "flow 1 pri "
  const VLAN := " vlan "

  /** What follows a keyword at the start of `s`. */
  function Keyword(t: string, s: string): (r: Option<string>)
    ensures r.Some? ==> |r.value| == |s| - |t|
  {
    if t <= s then Some(s[|t|..]) else None
  }

  /** The digits at the start of `s`, all of them, and what follows. */
  function Number(s: string): (r: Option<(string, string)>)
    ensures r.Some? ==> IsNumeral(r.value.0) && |r.value.1| < |s|
  {
    var n := Leading(s, IsDigit);
    if n == 0 then None else Some((s[..n], s[n..]))
  }

  /** The expression at the start of `s`: the VLAN's digits, and what follows the match. */
  function FlowMatch(s: string): (r: Option<(string, string)>)
    ensures r.Some? ==> IsNumeral(r.value.0) && |r.value.1| < |s|
  {
    match Keyword(FLOW_1, s)
    case None => None
    case Some(priority) =>
      match Number(priority)
      case None => None
      case Some((_, rest)) =>
        match Keyword(VLAN, rest)
        case None => None
        case Some(vlan) => Number(vlan)
  }

  /** All matches from left to right, none overlapping another. */
  function FlowVlans(s: string): seq<nat>
    decreases |s|
  {
    if s == "" then []
    else
      match FlowMatch(s)
      case Some((vlan, rest)) => [Value(vlan)] + FlowVlans(rest)
      case None => FlowVlans(s[1..])
  }

  // ---------------------------------------------------------------- line by line

  function Glue(a: string, b: string): string { a + "\n" + b }

  lemma KeywordAcross(t: string, a: string, b: string)
    requires OneLine(t)
    ensures Keyword(t, Glue(a, b)) == if Keyword(t, a).Some? then Some(Glue(Keyword(t, a).value, b)) else None
  {
    var s := Glue(a, b);
    assert s[..|a|] == a && s[|a|] == '\n';
    if t <= a {
      assert s[|t|..] == Glue(a[|t|..], b);
    }
    if t <= s {
      assert forall k :: 0 <= k < |t| ==> s[k] == t[k];
      assert |t| <= |a|;
      assert s[..|t|] == a[..|t|];
    }
  }

  lemma NumberAcross(a: string, b: string)
    ensures Number(Glue(a, b))
         == if Number(a).Some? then Some((Number(a).value.0, Glue(Number(a).value.1, b))) else None
  {
    var s, n := Glue(a, b), Leading(a, IsDigit);
    assert forall k :: 0 <= k < |a| ==> s[k] == a[k];
    assert s[|a|] == '\n';
    SameRun(s, n, IsDigit);
    assert s[..n] == a[..n] && s[n..] == Glue(a[n..], b);
  }

  lemma SameRun(s: string, n: nat, f: char -> bool)
    requires n < |s| && !f(s[n]) && forall k :: 0 <= k < n ==> f(s[k])
    ensures Leading(s, f) == n
  {
  }

  /** No match goes beyond the end of a line. */
  lemma MatchAcross(a: string, b: string)
    ensures FlowMatch(Glue(a, b))
         == if FlowMatch(a).Some? then Some((FlowMatch(a).value.0, Glue(FlowMatch(a).value.1, b))) else None
  {
    KeywordAcross(FLOW_1, a, b);
    if Keyword(FLOW_1, a).Some? {
      var priority := Keyword(FLOW_1, a).value;
      NumberAcross(priority, b);
      if Number(priority).Some? {
        var rest := Number(priority).value.1;
        KeywordAcross(VLAN, rest, b);
        if Keyword(VLAN, rest).Some? { NumberAcross(Keyword(VLAN, rest).value, b); }
      }
    }
  }

  /** Lines are read one after another. */
  lemma {:induction false} FlowsAcross(a: string, b: string)
    ensures FlowVlans(Glue(a, b)) == FlowVlans(a) + FlowVlans(b)
    decreases |a|
  {
    MatchAcross(a, b);
    if a == "" {
      assert Glue(a, b)[1..] == b;
    } else if FlowMatch(a).Some? {
      var m := FlowMatch(a).value;
      FlowsAcross(m.1, b);
      assert FlowVlans(Glue(a, b)) == [Value(m.0)] + FlowVlans(Glue(m.1, b));
      assert FlowVlans(a) == [Value(m.0)] + FlowVlans(m.1);
      Associate([Value(m.0)], FlowVlans(m.1), FlowVlans(b));
    } else {
      assert Glue(a, b)[1..] == Glue(a[1..], b);
      FlowsAcross(a[1..], b);
    }
  }

  lemma Associate<T>(p: seq<T>, q: seq<T>, r: seq<T>)
    ensures (p + q) + r == p + (q + r)
  {
  }

  function FlowsOfLines(ls: seq<string>): seq<nat>
    decreases |ls|
  {
    if ls == [] then [] else FlowVlans(ls[0]) + FlowsOfLines(ls[1..])
  }

  lemma {:induction false} FlowsOfUnlines(ls: seq<string>)
    requires ls != []
    ensures FlowVlans(Unlines(ls)) == FlowsOfLines(ls)
    decreases |ls|
  {
    if |ls| == 1 {
      assert FlowsOfLines(ls[1..]) == [];
    } else {
      FlowsOfUnlines(ls[1..]);
      assert Unlines(ls) == Glue(ls[0], Unlines(ls[1..]));
      FlowsAcross(ls[0], Unlines(ls[1..]));
    }
  }

  /** Searching the whole text is searching its lines one after another. */
  lemma FlowsByLines(raw: string)
    ensures FlowVlans(raw) == FlowsOfLines(Lines(raw))
  {
    UnlinesOfLines(raw);
    FlowsOfUnlines(Lines(raw));
  }

  // ------------------------------------------------------------------ the listing

  /** A line of flow 1, or any line in which the expression finds nothing. */
  datatype ConfigLine =
    | FlowLine(pad: string, priority: nat, vlan: nat, trail: string)
    | Other(text: string)

  function Printed(l: ConfigLine): string {
    match l
    case FlowLine(pad, priority, vlan, trail) => pad + ("flow 1 pri " + (Decimal(priority) + (" vlan " + (Decimal(vlan) + trail))))
    case Other(text) => text
  }

  predicate Printable(l: ConfigLine) {
    match l
    case FlowLine(pad, _, _, trail) => AllSpace(pad) && AllSpace(trail)
    case Other(text) => FlowVlans(text) == []
  }

  function FlowsOf(ls: seq<ConfigLine>): seq<(nat, nat)>
    decreases |ls|
  {
    if ls == [] then []
    else (if ls[0].FlowLine? then [(ls[0].priority, ls[0].vlan)] else []) + FlowsOf(ls[1..])
  }

  function PrintedLines(ls: seq<ConfigLine>): (r: seq<string>)
    ensures |r| == |ls| && forall k :: 0 <= k < |ls| ==> r[k] == Printed(ls[k])
  {
    seq(|ls|, k requires 0 <= k < |ls| => Printed(ls[k]))
  }

  function VlansOf(flows: seq<(nat, nat)>): (r: seq<nat>)
    ensures |r| == |flows| && forall k :: 0 <= k < |r| ==> r[k] == flows[k].1
  {
    seq(|flows|, k requires 0 <= k < |flows| => flows[k].1)
  }

  lemma {:induction false} SpaceHasNoFlow(pad: string, rest: string)
    requires AllSpace(pad)
    ensures FlowVlans(pad + rest) == FlowVlans(rest)
    decreases |pad|
  {
    if pad == "" {
      assert pad + rest == rest;
    } else {
      assert (pad + rest)[0] == pad[0] && FLOW_1[0] == 'f';
      assert (pad + rest)[1..] == pad[1..] + rest;
      SpaceHasNoFlow(pad[1..], rest);
    }
  }

  lemma NumberOfDecimal(n: nat, rest: string)
    requires rest == "" || !IsDigit(rest[0])
    ensures Number(Decimal(n) + rest) == Some((Decimal(n), rest))
  {
    var d, s := Decimal(n), Decimal(n) + rest;
    assert forall k :: 0 <= k < |d| ==> s[k] == d[k];
    assert s[..|d|] == d && s[|d|..] == rest;
    if rest == "" { AllRun(s, IsDigit); } else { SameRun(s, |d|, IsDigit); }
  }

  lemma AllRun(s: string, f: char -> bool)
    requires forall k :: 0 <= k < |s| ==> f(s[k])
    ensures Leading(s, f) == |s|
  {
  }

  lemma KeywordFound(t: string, rest: string)
    ensures Keyword(t, t + rest) == Some(rest)
  {
    assert (t + rest)[..|t|] == t && (t + rest)[|t|..] == rest;
  }

  lemma FlowIsMatched(priority: nat, vlan: nat, trail: string)
    requires AllSpace(trail)
    ensures FlowMatch(FLOW_1 + (Decimal(priority) + (VLAN + (Decimal(vlan) + trail)))) == Some((Decimal(vlan), trail))
  {
    var v := Decimal(vlan) + trail;
    var p := VLAN + v;
    assert p[0] == ' ';
    KeywordFound(FLOW_1, Decimal(priority) + p);
    NumberOfDecimal(priority, p);
    KeywordFound(VLAN, v);
    NumberOfDecimal(vlan, trail);
  }

  lemma FlowIsRead(l: ConfigLine)
    requires l.FlowLine? && Printable(l)
    ensures FlowVlans(Printed(l)) == [l.vlan]
  {
    var s := FLOW_1 + (Decimal(l.priority) + (VLAN + (Decimal(l.vlan) + l.trail)));
    SpaceHasNoFlow(l.pad, s);
    FlowIsMatched(l.priority, l.vlan, l.trail);
    ValueOfDecimal(l.vlan);
    SpaceHasNoFlow(l.trail, "");
    assert l.trail + "" == l.trail;
  }

  lemma VlansOfConcat(a: seq<(nat, nat)>, b: seq<(nat, nat)>)
    ensures VlansOf(a + b) == VlansOf(a) + VlansOf(b)
  {
  }

  lemma LineIsRead(l: ConfigLine)
    requires Printable(l)
    ensures FlowVlans(Printed(l)) == if l.FlowLine? then [l.vlan] else []
  {
    if l.FlowLine? { FlowIsRead(l); }
  }

  lemma {:induction false} LinesAreRead(ls: seq<ConfigLine>)
    requires forall k :: 0 <= k < |ls| ==> Printable(ls[k])
    ensures FlowsOfLines(PrintedLines(ls)) == VlansOf(FlowsOf(ls))
    decreases |ls|
  {
    if ls != [] {
      var l, rest := ls[0], ls[1..];
      assert forall k :: 0 <= k < |rest| ==> rest[k] == ls[k + 1];
      LinesAreRead(rest);
      assert PrintedLines(ls)[1..] == PrintedLines(rest);
      LineIsRead(l);
      var flow: seq<(nat, nat)> := if l.FlowLine? then [(l.priority, l.vlan)] else [];
      VlansOfConcat(flow, FlowsOf(rest));
      assert VlansOf(flow) == if l.FlowLine? then [l.vlan] else [];
    }
  }

  /** The text gives exactly the VLANs of flow 1, in order and whatever their priorities. */
  lemma FlowsAreRead(ls: seq<ConfigLine>, raw: string)
    requires ls != [] && forall k :: 0 <= k < |ls| ==> Printable(ls[k])
    requires raw == Unlines(PrintedLines(ls))
    ensures FlowVlans(raw) == VlansOf(FlowsOf(ls))
  {
    FlowsOfUnlines(PrintedLines(ls));
    LinesAreRead(ls);
  }
}
