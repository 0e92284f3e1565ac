/**
 Taking the fields of an ONU's configuration from its text. Lines are read in
 order and a later line overwrites what an earlier one gave.
 */
module ConfigFields {
  import opened Options
  import opened Text
  import opened LinePatterns
  import opened LineWords

  const TCONT: Pattern := [Exact("tcont"), Digits, Exact("name"), Word, Exact("profile"), Word]
  const NAMED_GEMPORT: Pattern := [Exact("gemport"), Digits, Exact("name"), Word, Exact("tcont"), Digits]
  const PLAIN_GEMPORT: Pattern := [Exact("gemport"), Digits, Exact("tcont"), Digits]
  const SERVICE_PORT: Pattern :=
    [Exact("service-port"), Digits, Exact("vport"), Digits, Exact("user-vlan"), Digits, Exact("vlan"), Digits]
  const PPPOE: Pattern :=
    [Exact("pppoe"), Digits, Exact("nat"), Exact("enable"), Exact("user"), Word, Exact("password"), Word]
  const FLOW: Pattern := [Exact("flow"), Digits, Exact("pri"), Digits, Exact("vlan"), Digits]
  const IPHOST_FILTER: Pattern :=
    [Exact("vlan-filter"), Exact("iphost"), Word, Exact("pri"), Digits, Exact("vlan"), Digits]
  const ETHUNI_FILTER: Pattern :=
    [Exact("vlan-filter"), Exact("ethuni"), Word, Exact("pri"), Digits, Exact("vlan"), Digits]

  lemma TcontIsGood()
    ensures Good(TCONT)
  {
  }

  lemma NamedGemportIsGood()
    ensures Good(NAMED_GEMPORT)
  {
  }

  lemma PlainGemportIsGood()
    ensures Good(PLAIN_GEMPORT)
  {
  }

  lemma GoodConcat(p: Pattern, q: Pattern)
    requires Good(p) && Good(q)
    ensures Good(p + q)
  {
  }

  lemma UserVlanIsGood()
    ensures Good([Exact("user-vlan"), Digits, Exact("vlan"), Digits])
  {
  }

  lemma ServicePortIsGood()
    ensures Good(SERVICE_PORT)
  {
    var p, q := [Exact("service-port"), Digits, Exact("vport"), Digits],
                [Exact("user-vlan"), Digits, Exact("vlan"), Digits];
    UserVlanIsGood();
    GoodConcat(p, q);
    assert SERVICE_PORT == p + q;
  }

  lemma PppoeIsGood()
    ensures Good(PPPOE)
  {
  }

  lemma FlowIsGood()
    ensures Good(FLOW)
  {
  }

  lemma PriVlanIsGood()
    ensures Good([Word, Exact("pri"), Digits, Exact("vlan"), Digits])
  {
  }

  lemma IphostFilterIsGood()
    ensures Good(IPHOST_FILTER)
  {
    var p, q := [Exact("vlan-filter"), Exact("iphost")], [Word, Exact("pri"), Digits, Exact("vlan"), Digits];
    PriVlanIsGood();
    GoodConcat(p, q);
    assert IPHOST_FILTER == p + q;
  }

  lemma EthuniFilterIsGood()
    ensures Good(ETHUNI_FILTER)
  {
    var p, q := [Exact("vlan-filter"), Exact("ethuni")], [Word, Exact("pri"), Digits, Exact("vlan"), Digits];
    PriVlanIsGood();
    GoodConcat(p, q);
    assert ETHUNI_FILTER == p + q;
  }

  // ------------------------------------------------------------------ one line

  /** ID, name and profile. */
  function TcontIn(line: string): Option<(string, string, string)> {
    TcontIsGood();
    match MatchFirst([TCONT], Strip(line))
    case Some(c) => Some((c[1], c[3], c[5]))
    case None => None
  }

  /** ID, name (empty when the line has none) and T-CONT; the name is an optional group of the expression. */
  function GemportIn(line: string): Option<(string, string, string)> {
    NamedGemportIsGood();
    PlainGemportIsGood();
    match MatchFirst([NAMED_GEMPORT, PLAIN_GEMPORT], Strip(line))
    case Some(c) => if |c| == 6 then Some((c[1], c[3], c[5])) else Some((c[1], "", c[3]))
    case None => None
  }

  /** ID, virtual port, user VLAN and VLAN. */
  function ServicePortIn(line: string): Option<(string, string, string, string)> {
    ServicePortIsGood();
    match MatchFirst([SERVICE_PORT], Strip(line))
    case Some(c) => Some((c[1], c[3], c[5], c[7]))
    case None => None
  }

  /** User and password. */
  function PppoeIn(line: string): Option<(string, string)> {
    PppoeIsGood();
    match Search([PPPOE], Strip(line))
    case Some(c) => Some((c[5], c[7]))
    case None => None
  }

  /** Flow and VLAN. */
  function FlowIn(line: string): Option<(string, string)> {
    FlowIsGood();
    match Search([FLOW], Strip(line))
    case Some(c) => Some((c[1], c[5]))
    case None => None
  }

  function FilterIn(line: string): Option<string> {
    IphostFilterIsGood();
    EthuniFilterIsGood();
    match Search([IPHOST_FILTER, ETHUNI_FILTER], Strip(line))
    case Some(c) => Some(c[6])
    case None => None
  }

  /** The text after the word `name` and the space behind it. */
  function NameIn(line: string): Option<string> {
    var s := Strip(line);
    if "name" <= s then
      var gap := Leading(s[4..], IsSpace);
      if gap > 0 then Some(s[4 + gap..]) else None
    else None
  }

  /** The text after the last occurrence of `t`, or all of it when there is none. */
  function AfterLast(s: string, t: string): string
    decreases |s|
  {
    if s != "" && Contains(s[1..], t) then AfterLast(s[1..], t)
    else if t <= s then s[|t|..]
    else s
  }

  function GapIn(line: string): Option<string> {
    if Contains(Strip(line), "gap mode") then Some(AfterLast(Strip(line), "gap ")) else None
  }

  /** The whole line, when it contains the phrase. */
  function LineWith(line: string, phrase: string): Option<string> {
    if Contains(Strip(line), phrase) then Some(Strip(line)) else None
  }

  function SwitchportModeIn(line: string): Option<string> { LineWith(line, "switchport mode") }

  function FlowModeIn(line: string): Option<string> { LineWith(line, "flow mode") }

  function GemportFlowIn(line: string): Option<string> {
    if Contains(Strip(line), "flow") then LineWith(line, "gemport") else None
  }

  function SwitchportBindIn(line: string): Option<string> { LineWith(line, "switchport-bind") }

  function FilterModeIn(line: string): Option<string> { LineWith(line, "vlan-filter-mode") }

  function FirewallIn(line: string): Option<string> { LineWith(line, "firewall") }

  function RxThresholdIn(line: string): Option<string> { LineWith(line, "rx-optical-thresh") }

  function SecurityIn(line: string): Option<string> { LineWith(line, "security-mgmt") }

  function Tr069In(line: string): Option<string> { LineWith(line, "tr069-mgmt") }

  function WanIpIn(line: string): Option<string> { LineWith(line, "wan-ip") }

  const ONU_VLAN := "onu-vlan"

  function OnuVlanIn(line: string): Option<string> { LineWith(line, ONU_VLAN) }

  predicate Bridges(line: string) { OnuVlanIn(line).Some? }

  // ---------------------------------------------------------------- all lines

  /** What the last line that gives anything gives. */
  function Last<A, T>(f: A -> Option<T>, xs: seq<A>): Option<T>
    decreases |xs|
  {
    if xs == [] then None
    else
      var r := f(xs[|xs| - 1]);
      if r.Some? then r else Last(f, xs[..|xs| - 1])
  }

  /** What the lines give, in order. */
  function Every<A, T>(f: A -> Option<T>, xs: seq<A>): seq<T>
    decreases |xs|
  {
    if xs == [] then []
    else
      var r := f(xs[|xs| - 1]);
      Every(f, xs[..|xs| - 1]) + if r.Some? then [r.value] else []
  }

  predicate AnyBridges(lines: seq<string>) {
    exists k :: 0 <= k < |lines| && Bridges(lines[k])
  }

  datatype InterfaceFields = InterfaceFields(
    name: Option<string>, tcont: Option<(string, string, string)>, gap: Option<string>,
    gemport: Option<(string, string, string)>, servicePort: Option<(string, string, string, string)>,
    switchportMode: Option<string>)

  datatype Mode = BridgeMode | PppoeMode | UnknownMode

  datatype MngFields = MngFields(
    pppoe: Option<(string, string)>, flow: Option<(string, string)>, filterVlan: Option<string>, mode: Mode,
    copies: Copies)

  /** Lines copied whole. */
  datatype Copies = Copies(
    flowMode: Option<string>, gemportFlow: Option<string>, switchportBind: Option<string>, filterMode: Option<string>,
    firewall: Option<string>, rxThreshold: Option<string>, security: seq<string>, tr069: seq<string>,
    onuVlan: Option<string>, wanIp: Option<string>)

  function Newer<T>(before: Option<T>, now: Option<T>): Option<T> {
    if now.Some? then now else before
  }

  lemma LastNext<A, T>(f: A -> Option<T>, xs: seq<A>, k: nat)
    requires k < |xs|
    ensures Last(f, xs[..k + 1]) == Newer(Last(f, xs[..k]), f(xs[k]))
  {
    assert xs[..k + 1][..k] == xs[..k];
  }

  lemma EveryNext<A, T>(f: A -> Option<T>, xs: seq<A>, k: nat)
    requires k < |xs|
    ensures Every(f, xs[..k + 1]) == Every(f, xs[..k]) + if f(xs[k]).Some? then [f(xs[k]).value] else []
  {
    assert xs[..k + 1][..k] == xs[..k];
  }

  method ParseInterfaceFields(raw: string) returns (d: InterfaceFields)
    ensures
      var lines := Lines(raw);
      d == InterfaceFields(Last(NameIn, lines), Last(TcontIn, lines), Last(GapIn, lines),
                           Last(GemportIn, lines), Last(ServicePortIn, lines), Last(SwitchportModeIn, lines))
  {
    var lines := Lines(raw);
    d := InterfaceFields(None, None, None, None, None, None);
    for k := 0 to |lines|
      invariant d.name == Last(NameIn, lines[..k])
      invariant d.tcont == Last(TcontIn, lines[..k])
      invariant d.gap == Last(GapIn, lines[..k])
      invariant d.gemport == Last(GemportIn, lines[..k])
      invariant d.servicePort == Last(ServicePortIn, lines[..k])
      invariant d.switchportMode == Last(SwitchportModeIn, lines[..k])
    {
      LastNext(NameIn, lines, k);
      LastNext(TcontIn, lines, k);
      LastNext(GapIn, lines, k);
      LastNext(GemportIn, lines, k);
      LastNext(ServicePortIn, lines, k);
      LastNext(SwitchportModeIn, lines, k);
      d := InterfaceFields(
        Newer(d.name, NameIn(lines[k])), Newer(d.tcont, TcontIn(lines[k])), Newer(d.gap, GapIn(lines[k])),
        Newer(d.gemport, GemportIn(lines[k])), Newer(d.servicePort, ServicePortIn(lines[k])),
        Newer(d.switchportMode, SwitchportModeIn(lines[k])));
    }
    assert lines[..|lines|] == lines;
  }

  /** Bridge mode wins; without it the credentials decide. */
  function ModeOf(lines: seq<string>): Mode {
    if AnyBridges(lines) then BridgeMode
    else if Last(PppoeIn, lines).Some? then PppoeMode
    else UnknownMode
  }

  function CopiesOf(lines: seq<string>): Copies {
    Copies(
      Last(FlowModeIn, lines), Last(GemportFlowIn, lines), Last(SwitchportBindIn, lines), Last(FilterModeIn, lines),
      Last(FirewallIn, lines), Last(RxThresholdIn, lines), Every(SecurityIn, lines), Every(Tr069In, lines),
      Last(OnuVlanIn, lines), Last(WanIpIn, lines))
  }

  function CopyLine(c: Copies, line: string): Copies {
    Copies(
      Newer(c.flowMode, FlowModeIn(line)), Newer(c.gemportFlow, GemportFlowIn(line)),
      Newer(c.switchportBind, SwitchportBindIn(line)), Newer(c.filterMode, FilterModeIn(line)),
      Newer(c.firewall, FirewallIn(line)), Newer(c.rxThreshold, RxThresholdIn(line)),
      c.security + (if SecurityIn(line).Some? then [SecurityIn(line).value] else []),
      c.tr069 + (if Tr069In(line).Some? then [Tr069In(line).value] else []),
      Newer(c.onuVlan, OnuVlanIn(line)), Newer(c.wanIp, WanIpIn(line)))
  }

  lemma CopiesNext(lines: seq<string>, k: nat)
    requires k < |lines|
    ensures CopiesOf(lines[..k + 1]) == CopyLine(CopiesOf(lines[..k]), lines[k])
  {
    LastNext(FlowModeIn, lines, k);
    LastNext(GemportFlowIn, lines, k);
    LastNext(SwitchportBindIn, lines, k);
    LastNext(FilterModeIn, lines, k);
    LastNext(FirewallIn, lines, k);
    LastNext(RxThresholdIn, lines, k);
    EveryNext(SecurityIn, lines, k);
    EveryNext(Tr069In, lines, k);
    LastNext(OnuVlanIn, lines, k);
    LastNext(WanIpIn, lines, k);
  }

  method ParsePonOnuMngFields(raw: string) returns (d: MngFields)
    ensures
      var lines := Lines(raw);
      d == MngFields(Last(PppoeIn, lines), Last(FlowIn, lines), Last(FilterIn, lines), ModeOf(lines), CopiesOf(lines))
  {
    var lines := Lines(raw);
    var pppoe, flow, filterVlan, mode := None, None, None, None;
    var copies := Copies(None, None, None, None, None, None, [], [], None, None);
    for k := 0 to |lines|
      invariant pppoe == Last(PppoeIn, lines[..k])
      invariant flow == Last(FlowIn, lines[..k])
      invariant filterVlan == Last(FilterIn, lines[..k])
      invariant mode == if AnyBridges(lines[..k]) then Some(BridgeMode) else None
      invariant copies == CopiesOf(lines[..k])
    {
      LastNext(PppoeIn, lines, k);
      LastNext(FlowIn, lines, k);
      LastNext(FilterIn, lines, k);
      BridgesNext(lines, k);
      CopiesNext(lines, k);
      pppoe := Newer(pppoe, PppoeIn(lines[k]));
      flow := Newer(flow, FlowIn(lines[k]));
      filterVlan := Newer(filterVlan, FilterIn(lines[k]));
      copies := CopyLine(copies, lines[k]);
      if Bridges(lines[k]) {
        mode := Some(BridgeMode);
      }
    }
    assert lines[..|lines|] == lines;
    if mode.None? {
      mode := if pppoe.Some? then Some(PppoeMode) else Some(UnknownMode);
    }
    d := MngFields(pppoe, flow, filterVlan, mode.value, copies);
  }

  lemma BridgesNext(lines: seq<string>, k: nat)
    requires k < |lines|
    ensures AnyBridges(lines[..k + 1]) <==> AnyBridges(lines[..k]) || Bridges(lines[k])
  {
    assert lines[..k + 1] == lines[..k] + [lines[k]];
    if Bridges(lines[k]) { assert Bridges(lines[..k + 1][k]); }
    if AnyBridges(lines[..k]) {
      var i :| 0 <= i < k && Bridges(lines[..k][i]);
      assert Bridges(lines[..k + 1][i]);
    }
  }
}
