/** What the driver printed, the field parsers read back: for every list of commands a configuration can show. */
module ConfigRoundTrip {
  import opened Options
  import opened Text
  import opened LinePatterns
  import opened LineWords
  import opened OnuCommands
  import opened OnuConfigText
  import opened ConfigFields

  lemma ExactTakesItself(t: string)
    requires t != ""
    ensures Whole(Exact(t), t)
  {
  }

  lemma WordTakesAll(w: string)
    requires IsWord(w)
    ensures Whole(Word, w)
  {
  }

  // ------------------------------------------------------- fields of a command

  function TcontFields(c: Cmd): Option<(string, string, string)> {
    if c.Tcont? then Some((Decimal(c.tcont), c.name, c.profile)) else None
  }

  function GemportFields(c: Cmd): Option<(string, string, string)> {
    if c.Gemport? then Some((Decimal(c.gem), if c.gemName.Some? then c.gemName.value else "", Decimal(c.tcont))) else None
  }

  function ServicePortFields(c: Cmd): Option<(string, string, string, string)> {
    if c.ServicePort? then Some((Decimal(c.sp), "1", Decimal(c.vlan), Decimal(c.vlan))) else None
  }

  function PppoeFields(c: Cmd): Option<(string, string)> {
    if c.Pppoe? then Some((c.user, c.password)) else None
  }

  function FlowFields(c: Cmd): Option<(string, string)> {
    if c.Flow? then Some(("1", Decimal(c.vlan))) else None
  }

  function FilterFields(c: Cmd): Option<string> {
    if c.VlanFilter? then Some(Decimal(c.vlan)) else None
  }

  // ------------------------------------------------------------ anchored patterns

  lemma AnchoredByWords(ps: seq<Pattern>, line: string)
    requires AllGood(ps)
    ensures MatchFirst(ps, Strip(line)) == MatchFirstWords(ps, Words(line))
  {
    StripKeepsWords(line);
    MatchFirstByWords(ps, Strip(line));
  }

  /** Which commands open with which word. */
  lemma KnobOpens(k: Knob)
    ensures
      var w := KnobWords(k)[0];
      w != "tcont" && w != "service-port" && (w == "gemport" <==> k == GemportFlow)
  {
  }

  lemma Opens(c: Cmd)
    ensures
      var w := LineOf(c)[0];
      && (w == "tcont" <==> c.Tcont? || c.TcontGap?)
      && (w == "gemport" <==> c.Gemport? || c == Setting(GemportFlow))
      && (w == "service-port" <==> c.ServicePort?)
  {
    if c.Setting? { KnobOpens(c.knob); }
  }

  lemma AnchoredNeeds(p: Pattern, ws: seq<string>)
    requires p != [] && MatchWords(p, ws).Some?
    ensures |ws| >= |p| && forall i :: 0 <= i < |p| - 1 && p[i].Exact? ==> ws[i] == p[i].text
  {
    MatchNeeds(p, ws);
    forall i | 0 <= i < |p| - 1 && p[i].Exact? ensures ws[i] == p[i].text {
      assert Whole(p[i], ws[i]);
    }
  }

  lemma OneAlternative(p: Pattern, ws: seq<string>)
    requires Good(p)
    ensures MatchFirstWords([p], ws) == MatchWords(p, ws)
  {
  }

  lemma TcontHit(c: Cmd)
    requires Showable(c) && c.Tcont?
    ensures MatchWords(TCONT, LineOf(c)) == Some(LineOf(c))
  {
    var ws := LineOf(c);
    NumberIsWord(c.tcont);
    ExactTakesItself("tcont");
    ExactTakesItself("name");
    WordTakesAll(c.name);
    ExactTakesItself("profile");
    WordTakesAll(c.profile);
    MatchWhole(TCONT, ws);
    assert ws[..|TCONT|] == ws;
  }

  lemma TcontMiss(c: Cmd)
    requires !c.Tcont?
    ensures MatchWords(TCONT, LineOf(c)) == None
  {
    if MatchWords(TCONT, LineOf(c)).Some? {
      AnchoredNeeds(TCONT, LineOf(c));
      Opens(c);
      assert false;
    }
  }

  lemma TcontLine(line: string, c: Cmd)
    requires Showable(c) && Words(line) == LineOf(c)
    ensures TcontIn(line) == TcontFields(c)
  {
    TcontIsGood();
    AnchoredByWords([TCONT], line);
    OneAlternative(TCONT, LineOf(c));
    if c.Tcont? { TcontHit(c); } else { TcontMiss(c); }
  }

  lemma NamedGemportHit(c: Cmd)
    requires Showable(c) && c.Gemport? && c.gemName.Some?
    ensures MatchWords(NAMED_GEMPORT, LineOf(c)) == Some(LineOf(c)[..6])
  {
    NumberIsWord(c.gem);
    NumberIsWord(c.tcont);
    ExactTakesItself("gemport");
    ExactTakesItself("name");
    WordTakesAll(c.gemName.value);
    ExactTakesItself("tcont");
    MatchWhole(NAMED_GEMPORT, LineOf(c));
  }

  lemma PlainGemportHit(c: Cmd)
    requires c.Gemport? && c.gemName.None?
    ensures MatchWords(PLAIN_GEMPORT, LineOf(c)) == Some(LineOf(c)[..4])
    ensures MatchWords(NAMED_GEMPORT, LineOf(c)) == None
  {
    NumberIsWord(c.gem);
    NumberIsWord(c.tcont);
    ExactTakesItself("gemport");
    ExactTakesItself("tcont");
    MatchWhole(PLAIN_GEMPORT, LineOf(c));
    if MatchWords(NAMED_GEMPORT, LineOf(c)).Some? {
      AnchoredNeeds(NAMED_GEMPORT, LineOf(c));
      assert false;
    }
  }

  lemma GemportMiss(c: Cmd)
    requires !c.Gemport?
    ensures MatchWords(NAMED_GEMPORT, LineOf(c)) == None && MatchWords(PLAIN_GEMPORT, LineOf(c)) == None
  {
    Opens(c);
    if MatchWords(NAMED_GEMPORT, LineOf(c)).Some? {
      AnchoredNeeds(NAMED_GEMPORT, LineOf(c));
      assert false;
    }
    if MatchWords(PLAIN_GEMPORT, LineOf(c)).Some? {
      AnchoredNeeds(PLAIN_GEMPORT, LineOf(c));
      assert false;
    }
  }

  lemma TwoAlternatives(p: Pattern, q: Pattern, ws: seq<string>)
    requires Good(p) && Good(q)
    ensures AllGood([p, q])
    ensures MatchFirstWords([p, q], ws) == if MatchWords(p, ws).Some? then MatchWords(p, ws) else MatchWords(q, ws)
  {
    assert [p, q][1..] == [q];
    assert MatchFirstWords([q], ws) == MatchWords(q, ws);
  }

  lemma GemportRead(line: string)
    ensures
      var named, plain := MatchWords(NAMED_GEMPORT, Words(line)), MatchWords(PLAIN_GEMPORT, Words(line));
      && (named.Some? ==> |named.value| == 6 && GemportIn(line) == Some((named.value[1], named.value[3], named.value[5])))
      && (named.None? && plain.Some? ==> |plain.value| == 4 && GemportIn(line) == Some((plain.value[1], "", plain.value[3])))
      && (named.None? && plain.None? ==> GemportIn(line) == None)
  {
    NamedGemportIsGood();
    PlainGemportIsGood();
    TwoAnchored(NAMED_GEMPORT, PLAIN_GEMPORT, line);
    MatchWordsCount(NAMED_GEMPORT, Words(line));
    MatchWordsCount(PLAIN_GEMPORT, Words(line));
  }

  lemma TwoAnchored(p: Pattern, q: Pattern, line: string)
    requires Good(p) && Good(q)
    ensures AllGood([p, q])
    ensures
      var m := MatchWords(p, Words(line));
      MatchFirst([p, q], Strip(line)) == if m.Some? then m else MatchWords(q, Words(line))
  {
    TwoAlternatives(p, q, Words(line));
    AnchoredByWords([p, q], line);
  }

  lemma {:induction false} MatchWordsCount(p: Pattern, ws: seq<string>)
    requires p != []
    ensures var m := MatchWords(p, ws); m.Some? ==> |m.value| == |p|
    decreases |p|
  {
    if |p| > 1 && ws != [] { MatchWordsCount(p[1..], ws[1..]); }
  }

  lemma GemportLine(line: string, c: Cmd)
    requires Showable(c) && Words(line) == LineOf(c)
    ensures GemportIn(line) == GemportFields(c)
  {
    GemportRead(line);
    if !c.Gemport? { GemportMiss(c); }
    else if c.gemName.Some? { NamedGemportHit(c); }
    else { PlainGemportHit(c); }
  }

  lemma ServicePortHit(c: Cmd)
    requires c.ServicePort?
    ensures MatchWords(SERVICE_PORT, LineOf(c)) == Some(LineOf(c)[..8])
  {
    NumberIsWord(c.sp);
    NumberIsWord(c.vlan);
    ExactTakesItself("service-port");
    ExactTakesItself("vport");
    ExactTakesItself("user-vlan");
    ExactTakesItself("vlan");
    assert Whole(Digits, "1");
    MatchWhole(SERVICE_PORT, LineOf(c));
  }

  lemma ServicePortLine(line: string, c: Cmd)
    requires Showable(c) && Words(line) == LineOf(c)
    ensures ServicePortIn(line) == ServicePortFields(c)
  {
    ServicePortIsGood();
    AnchoredByWords([SERVICE_PORT], line);
    OneAlternative(SERVICE_PORT, LineOf(c));
    if c.ServicePort? { ServicePortHit(c); } else { ServicePortMiss(c); }
  }

  lemma ServicePortMiss(c: Cmd)
    requires !c.ServicePort?
    ensures MatchWords(SERVICE_PORT, LineOf(c)) == None
  {
    Opens(c);
    if MatchWords(SERVICE_PORT, LineOf(c)).Some? {
      AnchoredNeeds(SERVICE_PORT, LineOf(c));
      assert false;
    }
  }

  // ----------------------------------------------------------- searched patterns

  lemma SearchedByWords(ps: seq<Pattern>, line: string)
    requires AllGood(ps)
    ensures Search(ps, Strip(line)) == SearchWords(ps, Words(line))
  {
    StripKeepsWords(line);
    SearchByWords(ps, Strip(line));
  }

  /** A line on which no word can stand where piece `i` of the pattern must. */
  lemma SearchedNeeds(p: Pattern, ws: seq<string>) returns (j: nat)
    requires Good(p) && |p| > 1 && AllWords(ws) && SearchWords([p], ws).Some?
    ensures j + |p| <= |ws|
    ensures forall i :: 1 <= i < |p| - 1 && p[i].Exact? ==> ws[j + i] == p[i].text
    ensures p[0].Exact? ==> EndsWith(ws[j], p[0].text)
  {
    var k: nat;
    k, j := SearchNeeds([p], ws);
    assert [p][k] == p;
    forall i | 1 <= i < |p| - 1 && p[i].Exact? ensures ws[j + i] == p[i].text {
      assert Whole(p[i], ws[j + i]);
    }
    if p[0].Exact? {
      var o: nat :| o < |ws[j]| && Whole(p[0], ws[j][o..]);
      assert ws[j][o..] == p[0].text;
    }
  }

  predicate EndsWith(w: string, t: string) {
    |t| <= |w| && w[|w| - |t|..] == t
  }

  lemma PppoeHit(c: Cmd)
    requires Showable(c) && c.Pppoe?
    ensures MatchWords(PPPOE, LineOf(c)) == Some(LineOf(c))
  {
    var ws := LineOf(c);
    ExactTakesItself("pppoe");
    assert Whole(Digits, "1");
    ExactTakesItself("nat");
    ExactTakesItself("enable");
    ExactTakesItself("user");
    WordTakesAll(c.user);
    ExactTakesItself("password");
    WordTakesAll(c.password);
    MatchWhole(PPPOE, ws);
    assert ws[..|PPPOE|] == ws;
  }

  lemma PppoeNeeds(ws: seq<string>) returns (j: nat)
    requires Good(PPPOE) && AllWords(ws) && SearchWords([PPPOE], ws).Some?
    ensures j + 8 <= |ws| && ws[j + 2] == "nat" && ws[j + 3] == "enable"
  {
    j := SearchedNeeds(PPPOE, ws);
    assert PPPOE[2] == Exact("nat") && PPPOE[3] == Exact("enable");
  }

  lemma PppoeMiss(c: Cmd)
    requires Good(PPPOE) && Showable(c) && !c.Pppoe?
    ensures SearchWords([PPPOE], LineOf(c)) == None
  {
    LineIsWords(c);
    if SearchWords([PPPOE], LineOf(c)).Some? {
      var j := PppoeNeeds(LineOf(c));
      NoNat(c, j);
      assert false;
    }
  }

  lemma NumberIsNot(n: nat, t: string)
    requires t != "" && !IsDigit(t[0])
    ensures Decimal(n) != t
  {
    NumberIsWord(n);
    assert IsDigit(Decimal(n)[0]);
  }

  /** Where PPPoE keywords would have to stand. */
  lemma NoNat(c: Cmd, j: nat)
    requires !c.Pppoe? && j + 8 <= |LineOf(c)|
    ensures LineOf(c)[j + 2] != "nat" || LineOf(c)[j + 3] != "enable"
  {
    if c.Setting? { KnobHasNoNat(c.knob, j + 2); }
  }

  lemma KnobHasNoNat(k: Knob, m: nat)
    requires m < |KnobWords(k)|
    ensures KnobWords(k)[m] != "nat"
  {
  }

  lemma PppoeLine(line: string, c: Cmd)
    requires Showable(c) && Words(line) == LineOf(c)
    ensures PppoeIn(line) == PppoeFields(c)
  {
    PppoeIsGood();
    SearchedByWords([PPPOE], line);
    if c.Pppoe? {
      PppoeHit(c);
      FoundAtStart(PPPOE, LineOf(c));
    } else {
      PppoeMiss(c);
    }
  }

  lemma FoundAtStart(p: Pattern, ws: seq<string>)
    requires Good(p) && MatchWords(p, ws).Some?
    ensures SearchWords([p], ws) == MatchWords(p, ws)
  {
    OneAlternative(p, ws);
  }

  lemma FlowHit(c: Cmd)
    requires c.Flow?
    ensures MatchWords(FLOW, LineOf(c)) == Some(LineOf(c))
  {
    var ws := LineOf(c);
    NumberIsWord(c.vlan);
    ExactTakesItself("flow");
    assert Whole(Digits, "1") && Whole(Digits, "0");
    ExactTakesItself("pri");
    ExactTakesItself("vlan");
    MatchWhole(FLOW, ws);
    assert ws[..|FLOW|] == ws;
  }

  lemma FlowNeeds(ws: seq<string>) returns (j: nat)
    requires Good(FLOW) && AllWords(ws) && SearchWords([FLOW], ws).Some?
    ensures j + 6 <= |ws| && EndsWith(ws[j], "flow") && ws[j + 2] == "pri" && ws[j + 4] == "vlan"
  {
    j := SearchedNeeds(FLOW, ws);
    assert FLOW[0] == Exact("flow") && FLOW[2] == Exact("pri") && FLOW[4] == Exact("vlan");
  }

  /** Only two commands have `pri`, a word and `vlan` one after the other, and then a word more. */
  predicate PriVlanAt(ws: seq<string>, m: nat) {
    m + 3 < |ws| && ws[m] == "pri" && ws[m + 2] == "vlan"
  }

  lemma PriVlan(c: Cmd, m: nat)
    requires Showable(c) && PriVlanAt(LineOf(c), m)
    ensures (c.Flow? && m == 2) || (c.VlanFilter? && m == 3)
  {
    if c.Setting? {
      KnobHasNoPri(c.knob, m);
    } else {
      forall n: nat ensures Decimal(n) != "pri" && Decimal(n) != "vlan" {
        NumberIsNot(n, "pri");
        NumberIsNot(n, "vlan");
      }
    }
  }

  lemma KnobHasNoPri(k: Knob, m: nat)
    requires m < |KnobWords(k)|
    ensures KnobWords(k)[m] != "pri"
  {
  }

  lemma FlowMiss(c: Cmd)
    requires Good(FLOW) && Showable(c) && !c.Flow?
    ensures SearchWords([FLOW], LineOf(c)) == None
  {
    LineIsWords(c);
    if SearchWords([FLOW], LineOf(c)).Some? {
      var j := FlowNeeds(LineOf(c));
      NoFlowAt(c, j);
      assert false;
    }
  }

  lemma NoFlowAt(c: Cmd, j: nat)
    requires Showable(c) && !c.Flow? && PriVlanAt(LineOf(c), j + 2)
    ensures !EndsWith(LineOf(c)[j], "flow")
  {
    PriVlan(c, j + 2);
    EndsOtherwise("iphost", "flow");
  }

  lemma EndsOtherwise(w: string, t: string)
    requires w != "" && t != "" && w[|w| - 1] != t[|t| - 1]
    ensures !EndsWith(w, t)
  {
    if |t| <= |w| { assert w[|w| - |t|..][|t| - 1] == w[|w| - 1]; }
  }

  lemma FlowLine(line: string, c: Cmd)
    requires Showable(c) && Words(line) == LineOf(c)
    ensures FlowIn(line) == FlowFields(c)
  {
    FlowIsGood();
    SearchedByWords([FLOW], line);
    if c.Flow? {
      FlowHit(c);
      FoundAtStart(FLOW, LineOf(c));
    } else {
      FlowMiss(c);
    }
  }

  lemma FilterHit(c: Cmd)
    requires c.VlanFilter?
    ensures MatchWords(IPHOST_FILTER, LineOf(c)) == Some(LineOf(c))
  {
    var ws := LineOf(c);
    NumberIsWord(c.vlan);
    ExactTakesItself("vlan-filter");
    ExactTakesItself("iphost");
    WordTakesAll("1");
    ExactTakesItself("pri");
    assert Whole(Digits, "0");
    ExactTakesItself("vlan");
    MatchWhole(IPHOST_FILTER, ws);
    assert ws[..|IPHOST_FILTER|] == ws;
  }

  lemma FilterNeeds(ps: seq<Pattern>, ws: seq<string>) returns (m: nat)
    requires ps == [IPHOST_FILTER, ETHUNI_FILTER] && AllGood(ps)
    requires AllWords(ws) && SearchWords(ps, ws).Some?
    ensures m >= 3 && PriVlanAt(ws, m)
  {
    var i, j := SearchNeeds(ps, ws);
    assert ps[i][3] == Exact("pri") && ps[i][5] == Exact("vlan") && |ps[i]| == 7;
    assert Whole(ps[i][3], ws[j + 3]) && Whole(ps[i][5], ws[j + 5]);
    m := j + 3;
  }

  lemma FilterMiss(c: Cmd, ps: seq<Pattern>)
    requires ps == [IPHOST_FILTER, ETHUNI_FILTER] && AllGood(ps)
    requires Showable(c) && !c.VlanFilter?
    ensures SearchWords(ps, LineOf(c)) == None
  {
    LineIsWords(c);
    if SearchWords(ps, LineOf(c)).Some? {
      var m := FilterNeeds(ps, LineOf(c));
      PriVlan(c, m);
      assert false;
    }
  }

  lemma FilterLine(line: string, c: Cmd)
    requires Showable(c) && Words(line) == LineOf(c)
    ensures FilterIn(line) == FilterFields(c)
  {
    IphostFilterIsGood();
    EthuniFilterIsGood();
    var ps := [IPHOST_FILTER, ETHUNI_FILTER];
    TwoAlternatives(IPHOST_FILTER, ETHUNI_FILTER, LineOf(c));
    SearchedByWords(ps, line);
    if c.VlanFilter? { FilterHit(c); } else { FilterMiss(c, ps); }
  }
}
