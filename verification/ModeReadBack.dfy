/**
 The mode the parser reports. It looks for `onu-vlan` anywhere in a line, so a
 value that contains it counts as much as the command of that name.
 */
module ModeReadBack {
  import opened Options
  import opened Text
  import opened LinePatterns
  import opened LineWords
  import opened OnuCommands
  import opened OnuConfigText
  import opened ConfigFields
  import opened ConfigReadBack

  predicate MngCommand(c: Cmd) {
    c.PonOnuMng? || c.Exit? || c.Flow? || c.VlanFilter? || c.Pppoe? || c.Tr069Acs? || c.Setting?
  }

  /** The values a caller supplies. */
  function Params(c: Cmd): seq<string> {
    match c
    case Pppoe(u, p) => [u, p]
    case Tr069Acs(url, u, p) => [url, u, p]
    case _ => []
  }

  predicate Clear(w: string) { 'v' !in w || 'o' !in w || 'u' !in w }

  lemma ContainingIsNotClear(w: string)
    requires Contains(w, ONU_VLAN)
    ensures !Clear(w)
  {
    var i: nat :| i <= |w| && OccursAt(w, ONU_VLAN, i);
    var t := w[i..i + 8];
    assert t[0] == w[i] && t[2] == w[i + 2] && t[4] == w[i + 4];
  }

  predicate AllClear(ws: seq<string>) {
    forall k :: 0 <= k < |ws| ==> Clear(ws[k])
  }

  lemma NumberIsClear(n: nat)
    ensures Clear(Decimal(n))
  {
    var d := Decimal(n);
    assert forall k :: 0 <= k < |d| ==> IsDigit(d[k]);
  }

  lemma PathIsClear(p: OnuPath)
    ensures Clear(PathWord(p))
  {
    forall n: nat ensures 'v' !in Decimal(n) {
      var d := Decimal(n);
      assert forall k :: 0 <= k < |d| ==> IsDigit(d[k]);
    }
  }

  lemma VoipSipIsClear()
    ensures AllClear(KnobWords(VoipSip))
  {
  }

  lemma RxThresholdIsClear()
    ensures AllClear(KnobWords(RxThreshold))
  {
  }

  lemma FlowModeIsClear()
    ensures AllClear(KnobWords(FlowMode))
  {
  }

  lemma GemportFlowIsClear()
    ensures AllClear(KnobWords(GemportFlow))
  {
  }

  lemma SwitchportBindIsClear()
    ensures AllClear(KnobWords(SwitchportBind))
  {
  }

  lemma FilterModeIsClear()
    ensures AllClear(KnobWords(FilterMode))
  {
  }

  lemma FirewallIsClear()
    ensures AllClear(KnobWords(Firewall))
  {
  }

  lemma Tr069UnlockIsClear()
    ensures AllClear(KnobWords(Tr069Unlock))
  {
  }

  lemma Security1IsClear()
    ensures AllClear(KnobWords(Security1))
  {
  }

  lemma Security2C320IsClear()
    ensures AllClear(KnobWords(Security2C320))
  {
  }

  lemma Security2IsClear()
    ensures AllClear(KnobWords(Security2))
  {
  }

  lemma Security3IsClear()
    ensures AllClear(KnobWords(Security3))
  {
  }

  lemma Security4IsClear()
    ensures AllClear(KnobWords(Security4))
  {
  }

  lemma KnobIsClear(k: Knob)
    ensures AllClear(KnobWords(k))
  {
    match k
    case VoipSip => VoipSipIsClear();
    case RxThreshold => RxThresholdIsClear();
    case FlowMode => FlowModeIsClear();
    case GemportFlow => GemportFlowIsClear();
    case SwitchportBind => SwitchportBindIsClear();
    case FilterMode => FilterModeIsClear();
    case Firewall => FirewallIsClear();
    case Tr069Unlock => Tr069UnlockIsClear();
    case Security1 => Security1IsClear();
    case Security2C320 => Security2C320IsClear();
    case Security2 => Security2IsClear();
    case Security3 => Security3IsClear();
    case Security4 => Security4IsClear();
  }

  /** Every word is one of the parameters or cannot hold `onu-vlan`. */
  predicate ClearButFor(ws: seq<string>, params: seq<string>) {
    && (forall k :: 0 <= k < |ws| ==> Clear(ws[k]) || ws[k] in params)
    && (forall p :: p in params ==> p in ws)
  }

  lemma PppoeIsClear(c: Cmd)
    requires c.Pppoe?
    ensures ClearButFor(LineOf(c), Params(c))
  {
    assert LineOf(c)[5] == c.user && LineOf(c)[7] == c.password;
  }

  lemma AcsKeywordsAreClear()
    ensures AllClear(["tr069-mgmt", "1", "acs", "validate", "basic", "username", "password"])
  {
  }

  lemma AcsIsClear(c: Cmd)
    requires c.Tr069Acs?
    ensures ClearButFor(LineOf(c), Params(c))
  {
    AcsKeywordsAreClear();
    var ws, fixed := LineOf(c), ["tr069-mgmt", "1", "acs", "validate", "basic", "username", "password"];
    assert ws == fixed[..3] + [c.url] + fixed[3..6] + [c.acsUser] + fixed[6..] + [c.acsPassword];
    assert ws[3] == c.url && ws[7] == c.acsUser && ws[9] == c.acsPassword;
    forall k | 0 <= k < 10 ensures Clear(ws[k]) || ws[k] in Params(c) {
      if k < 3 { assert ws[k] == fixed[k]; }
      else if 3 < k < 7 { assert ws[k] == fixed[k - 1]; }
      else if k == 8 { assert ws[k] == fixed[6]; }
    }
  }

  lemma FlowLineIsClear(c: Cmd)
    requires c.Flow?
    ensures AllClear(LineOf(c))
  {
    NumberIsClear(c.vlan);
  }

  lemma FilterLineIsClear(c: Cmd)
    requires c.VlanFilter?
    ensures AllClear(LineOf(c))
  {
    NumberIsClear(c.vlan);
  }

  lemma ContextLineIsClear(c: Cmd)
    requires c.PonOnuMng? || c.Exit?
    ensures AllClear(LineOf(c))
  {
    if c.PonOnuMng? { PathIsClear(c.path); }
  }

  lemma ClearOrParam(c: Cmd)
    requires MngCommand(c)
    ensures ClearButFor(LineOf(c), Params(c))
  {
    if c.Setting? { KnobIsClear(c.knob); }
    else if c.PonOnuMng? || c.Exit? { ContextLineIsClear(c); }
    else if c.Flow? { FlowLineIsClear(c); }
    else if c.VlanFilter? { FilterLineIsClear(c); }
    else if c.Pppoe? { PppoeIsClear(c); }
    else { AcsIsClear(c); }
  }

  lemma LineContains(ws: seq<string>, params: seq<string>)
    requires ClearButFor(ws, params)
    ensures AnyContains(ws, ONU_VLAN) <==> AnyContains(params, ONU_VLAN)
  {
    if AnyContains(ws, ONU_VLAN) {
      var k :| 0 <= k < |ws| && Contains(ws[k], ONU_VLAN);
      ContainingIsNotClear(ws[k]);
      var i :| 0 <= i < |params| && params[i] == ws[k];
    }
    if AnyContains(params, ONU_VLAN) {
      var i :| 0 <= i < |params| && Contains(params[i], ONU_VLAN);
      assert params[i] in ws;
      var k :| 0 <= k < |ws| && ws[k] == params[i];
    }
  }

  lemma BridgingLine(line: string, c: Cmd)
    requires MngCommand(c) && Words(line) == LineOf(c)
    ensures Bridges(line) <==> AnyContains(Params(c), ONU_VLAN)
  {
    StripKeepsWords(line);
    ContainsByWords(Strip(line), ONU_VLAN);
    ClearOrParam(c);
    LineContains(LineOf(c), Params(c));
  }

  ghost predicate SomeValueContains(cs: seq<Cmd>) {
    exists k :: 0 <= k < |cs| && AnyContains(Params(cs[k]), ONU_VLAN)
  }

  /** The parser reports bridge mode if and only if some value supplied contains `onu-vlan`. */
  lemma BridgeIff(raw: string, cs: seq<Cmd>)
    requires Shows(raw, cs) && forall k :: 0 <= k < |cs| ==> MngCommand(cs[k])
    ensures AnyBridges(Lines(raw)) <==> SomeValueContains(cs)
  {
    var lines := Lines(raw);
    forall k | 0 <= k < |cs| ensures Bridges(lines[k]) <==> AnyContains(Params(cs[k]), ONU_VLAN) {
      BridgingLine(lines[k], cs[k]);
    }
    if AnyBridges(lines) {
      var k :| 0 <= k < |lines| && Bridges(lines[k]);
      assert AnyContains(Params(cs[k]), ONU_VLAN);
    }
  }

  lemma HeadHasNoParams(c320: bool, vlan: nat)
    ensures forall c :: c in PushHead(c320, vlan) ==> MngCommand(c) && Params(c) == []
  {
  }

  lemma TailParams(c320: bool, vlan: nat, acs: Acs)
    ensures forall c :: c in PushTail(c320, vlan, acs) ==>
      MngCommand(c) && (Params(c) == [] || c == Tr069Acs(acs.url, acs.user, acs.password))
    ensures Tr069Acs(acs.url, acs.user, acs.password) in PushTail(c320, vlan, acs)
  {
    assert PushTail(c320, vlan, acs)[4] == Tr069Acs(acs.url, acs.user, acs.password);
  }

  /** An ONU that was given PPPoE credentials is reported in PPPoE mode if and only if none of the five values pushed
      to it contains `onu-vlan`; otherwise it is reported as a bridge. */
  lemma PppoeReportedIff(raw: string, path: OnuPath, c320: bool, vlan: nat, acs: Acs, user: string, password: string)
    requires IsWord(acs.url) && IsWord(acs.user) && IsWord(acs.password) && IsWord(user) && IsWord(password)
    requires Shows(raw, InMng(path, PushBody(c320, vlan, acs, Some(user), Some(password))))
    ensures ModeOf(Lines(raw))
         == if AnyContains([acs.url, acs.user, acs.password, user, password], ONU_VLAN) then BridgeMode else PppoeMode
  {
    PushIsShowable(c320, vlan, acs, user, password);
    PushReadBack(raw, path, c320, vlan, acs, Some(user), Some(password));
    BridgingPush(raw, path, c320, vlan, acs, user, password);
  }

  lemma PushIsShowable(c320: bool, vlan: nat, acs: Acs, user: string, password: string)
    requires IsWord(acs.url) && IsWord(acs.user) && IsWord(acs.password) && IsWord(user) && IsWord(password)
    ensures AllShowable(PushBody(c320, vlan, acs, Some(user), Some(password)))
  {
    var body := PushBody(c320, vlan, acs, Some(user), Some(password));
    assert PppoePart(Some(user), Some(password)) == [Cmd.Pppoe(user, password)];
    forall k | 0 <= k < |body| ensures Showable(body[k]) {
      var n := |PushHead(c320, vlan)|;
      if k < n { assert body[k] == PushHead(c320, vlan)[k]; }
      else if k > n { assert body[k] == PushTail(c320, vlan, acs)[k - n - 1]; }
    }
  }

  const WITNESS_ACS := Acs("http://acs", "onu-vlan-7", "secret")

  /** Such a value: the user name with which the ONU reports to its management server. */
  lemma PppoeReportedAsBridge(path: OnuPath)
    ensures
      ModeOf(Lines(PlainText(InMng(path, PushBody(false, 100, WITNESS_ACS, Some("user"), Some("pass"))))))
      == BridgeMode
  {
    var acs := WITNESS_ACS;
    var cs := InMng(path, PushBody(false, 100, acs, Some("user"), Some("pass")));
    PushIsShowable(false, 100, acs, "user", "pass");
    InMngShowable(path, PushBody(false, 100, acs, Some("user"), Some("pass")));
    PlainTextShows(cs);
    assert OccursAt(acs.user, ONU_VLAN, 0);
    assert Contains([acs.url, acs.user, acs.password, "user", "pass"][1], ONU_VLAN);
    PppoeReportedIff(PlainText(cs), path, false, 100, acs, "user", "pass");
  }

  lemma BridgingPush(raw: string, path: OnuPath, c320: bool, vlan: nat, acs: Acs, user: string, password: string)
    requires user != "" && password != ""
    requires Shows(raw, InMng(path, PushBody(c320, vlan, acs, Some(user), Some(password))))
    ensures AnyBridges(Lines(raw)) <==> AnyContains([acs.url, acs.user, acs.password, user, password], ONU_VLAN)
  {
    var body := PushBody(c320, vlan, acs, Some(user), Some(password));
    var cs := InMng(path, body);
    var login, report := Pppoe(user, password), Tr069Acs(acs.url, acs.user, acs.password);
    HeadHasNoParams(c320, vlan);
    TailParams(c320, vlan, acs);
    InMngIndex(path, body);
    assert PppoePart(Some(user), Some(password)) == [login];
    assert login in [login] && login in body && report in body;
    forall k | 0 <= k < |cs| ensures MngCommand(cs[k]) && (Params(cs[k]) == [] || cs[k] == login || cs[k] == report) {
      if 1 <= k <= |body| { assert cs[k] == body[k - 1] && cs[k] in body; }
    }
    BridgeIff(raw, cs);
    ValuesOfTwo(body, cs, login, report);
  }

  lemma ValuesOfTwo(body: seq<Cmd>, cs: seq<Cmd>, login: Cmd, report: Cmd)
    requires |cs| == |body| + 2 && forall k :: 1 <= k <= |body| ==> cs[k] == body[k - 1]
    requires login.Pppoe? && report.Tr069Acs? && login in body && report in body
    requires forall k :: 0 <= k < |cs| ==> Params(cs[k]) == [] || cs[k] == login || cs[k] == report
    ensures SomeValueContains(cs)
       <==> AnyContains([report.url, report.acsUser, report.acsPassword, login.user, login.password], ONU_VLAN)
  {
    var values := [report.url, report.acsUser, report.acsPassword, login.user, login.password];
    assert values == Params(report) + Params(login);
    EitherContains(Params(report), Params(login));
    var i :| 0 <= i < |body| && body[i] == login;
    var j :| 0 <= j < |body| && body[j] == report;
    assert cs[i + 1] == login && cs[j + 1] == report;
  }

  lemma EitherContains(a: seq<string>, b: seq<string>)
    ensures AnyContains(a + b, ONU_VLAN) <==> AnyContains(a, ONU_VLAN) || AnyContains(b, ONU_VLAN)
  {
    if AnyContains(a, ONU_VLAN) {
      var k :| 0 <= k < |a| && Contains(a[k], ONU_VLAN);
      assert (a + b)[k] == a[k];
    }
    if AnyContains(b, ONU_VLAN) {
      var k :| 0 <= k < |b| && Contains(b[k], ONU_VLAN);
      assert (a + b)[|a| + k] == b[k];
    }
  }
}
