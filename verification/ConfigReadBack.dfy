/** Whole configurations: what a text that shows some commands is read as. */
module ConfigReadBack {
  import opened Options
  import opened Text
  import opened LinePatterns
  import opened LineWords
  import opened OnuCommands
  import opened OnuCommandLaws
  import opened OnuConfigText
  import opened ConfigFields
  import opened ConfigRoundTrip

  /** Printing commands one to a line, with any indentation and trailing blanks, gives a text that shows them. */
  lemma PrintedShows(cs: seq<Cmd>, pads: seq<string>, trails: seq<string>, lines: seq<string>)
    requires cs != [] && AllShowable(cs) && |pads| == |trails| == |lines| == |cs|
    requires forall k :: 0 <= k < |cs| ==> lines[k] == pads[k] + Join(LineOf(cs[k])) + trails[k]
    requires forall k :: 0 <= k < |cs| ==> AllSpace(pads[k]) && OneLine(pads[k])
    requires forall k :: 0 <= k < |cs| ==> AllSpace(trails[k]) && OneLine(trails[k])
    ensures Shows(Unlines(lines), cs)
  {
    forall k | 0 <= k < |cs| ensures OneLine(lines[k]) && Words(lines[k]) == LineOf(cs[k]) {
      LineIsWords(cs[k]);
      JoinIsOneLine(LineOf(cs[k]));
      WordsOfPrinted(pads[k], LineOf(cs[k]), trails[k]);
    }
    LinesOfUnlines(lines);
  }

  /** The plainest such text. */
  function PlainText(cs: seq<Cmd>): string {
    Unlines(seq(|cs|, k requires 0 <= k < |cs| => Join(LineOf(cs[k]))))
  }

  lemma PlainTextShows(cs: seq<Cmd>)
    requires cs != [] && AllShowable(cs)
    ensures Shows(PlainText(cs), cs)
  {
    var lines := seq(|cs|, k requires 0 <= k < |cs| => Join(LineOf(cs[k])));
    var blanks := seq(|cs|, k => "");
    PrintedShows(cs, blanks, blanks, lines);
  }

  lemma {:induction false} LastAgrees<A, B, T>(f: A -> Option<T>, g: B -> Option<T>, xs: seq<A>, ys: seq<B>)
    requires |xs| == |ys| && forall k :: 0 <= k < |xs| ==> f(xs[k]) == g(ys[k])
    ensures Last(f, xs) == Last(g, ys)
    decreases |xs|
  {
    if xs != [] { LastAgrees(f, g, xs[..|xs| - 1], ys[..|ys| - 1]); }
  }

  lemma {:induction false} LastNone<A, T>(f: A -> Option<T>, xs: seq<A>)
    requires forall k :: 0 <= k < |xs| ==> f(xs[k]) == None
    ensures Last(f, xs) == None
    decreases |xs|
  {
    if xs != [] { LastNone(f, xs[..|xs| - 1]); }
  }

  lemma {:induction false} LastOnly<A, T>(f: A -> Option<T>, xs: seq<A>, i: nat)
    requires i < |xs| && f(xs[i]).Some?
    requires forall k :: 0 <= k < |xs| && k != i ==> f(xs[k]) == None
    ensures Last(f, xs) == f(xs[i])
    decreases |xs|
  {
    if i < |xs| - 1 { LastOnly(f, xs[..|xs| - 1], i); }
  }

  // ------------------------------------------------------------------ interface

  /** Every T-CONT, GEM port and service-port command is read back as printed, and no line as one that it is
      not: the fields are those of the last command of each kind. */
  lemma InterfaceReadBack(raw: string, cs: seq<Cmd>)
    requires AllShowable(cs) && Shows(raw, cs)
    ensures Last(TcontIn, Lines(raw)) == Last(TcontFields, cs)
    ensures Last(GemportIn, Lines(raw)) == Last(GemportFields, cs)
    ensures Last(ServicePortIn, Lines(raw)) == Last(ServicePortFields, cs)
  {
    var lines := Lines(raw);
    forall k | 0 <= k < |cs|
      ensures TcontIn(lines[k]) == TcontFields(cs[k])
      ensures GemportIn(lines[k]) == GemportFields(cs[k])
      ensures ServicePortIn(lines[k]) == ServicePortFields(cs[k])
    {
      TcontLine(lines[k], cs[k]);
      GemportLine(lines[k], cs[k]);
      ServicePortLine(lines[k], cs[k]);
    }
    LastAgrees(TcontIn, TcontFields, lines, cs);
    LastAgrees(GemportIn, GemportFields, lines, cs);
    LastAgrees(ServicePortIn, ServicePortFields, lines, cs);
  }

  /** What the batched session configured is what the parser reports. */
  lemma BatchReadBack(raw: string, path: OnuPath, tcont: nat, profile: string, gem: nat,
                      sp: nat, vlan: nat, svlan: Option<nat>)
    requires IsWord(profile) && Shows(raw, InInterface(path, BatchBody(tcont, profile, gem, sp, vlan, svlan)))
    ensures Last(TcontIn, Lines(raw)) == Some((Decimal(tcont), profile, profile))
    ensures Last(GemportIn, Lines(raw)) == Some((Decimal(gem), profile, Decimal(tcont)))
    ensures Last(ServicePortIn, Lines(raw)) == Some((Decimal(sp), "1", Decimal(vlan), Decimal(vlan)))
    ensures Value(Decimal(tcont)) == tcont && Value(Decimal(gem)) == gem
    ensures Value(Decimal(sp)) == sp && Value(Decimal(vlan)) == vlan
  {
    var cs := InInterface(path, BatchBody(tcont, profile, gem, sp, vlan, svlan));
    var port := BatchCommands(path, tcont, profile, gem, sp, vlan, svlan);
    SevenReadBack(raw, cs, tcont, profile, gem, port);
    ValueOfDecimal(tcont);
    ValueOfDecimal(gem);
    ValueOfDecimal(sp);
    ValueOfDecimal(vlan);
  }

  predicate IsBatch(cs: seq<Cmd>, tcont: nat, profile: string, gem: nat, port: Cmd) {
    && |cs| == 7 && cs[0].Interface? && cs[1] == Tcont(tcont, profile, profile) && cs[2].TcontGap?
    && cs[3] == Gemport(gem, Some(profile), tcont) && cs[4].SwitchportMode? && cs[5] == port && cs[6].Exit?
    && port.ServicePort? && IsWord(profile)
  }

  lemma SevenReadBack(raw: string, cs: seq<Cmd>, tcont: nat, profile: string, gem: nat, port: Cmd)
    requires IsBatch(cs, tcont, profile, gem, port) && Shows(raw, cs)
    ensures Last(TcontIn, Lines(raw)) == Some((Decimal(tcont), profile, profile))
    ensures Last(GemportIn, Lines(raw)) == Some((Decimal(gem), profile, Decimal(tcont)))
    ensures Last(ServicePortIn, Lines(raw)) == ServicePortFields(port)
  {
    BatchIsShowable(cs, tcont, profile, gem, port);
    InterfaceReadBack(raw, cs);
    LastOfBatch(cs, tcont, profile, gem, port);
  }

  lemma BatchIsShowable(cs: seq<Cmd>, tcont: nat, profile: string, gem: nat, port: Cmd)
    requires IsBatch(cs, tcont, profile, gem, port)
    ensures AllShowable(cs)
  {
  }

  lemma LastOfBatch(cs: seq<Cmd>, tcont: nat, profile: string, gem: nat, port: Cmd)
    requires IsBatch(cs, tcont, profile, gem, port)
    ensures Last(TcontFields, cs) == Some((Decimal(tcont), profile, profile))
    ensures Last(GemportFields, cs) == Some((Decimal(gem), profile, Decimal(tcont)))
    ensures Last(ServicePortFields, cs) == ServicePortFields(port)
  {
    LastOnly(TcontFields, cs, 1);
    LastOnly(GemportFields, cs, 3);
    LastOnly(ServicePortFields, cs, 5);
  }

  lemma BatchCommands(path: OnuPath, tcont: nat, profile: string, gem: nat, sp: nat, vlan: nat, svlan: Option<nat>)
    returns (port: Cmd)
    requires IsWord(profile)
    ensures IsBatch(InInterface(path, BatchBody(tcont, profile, gem, sp, vlan, svlan)), tcont, profile, gem, port)
    ensures port.sp == sp && port.vlan == vlan
  {
    port := ServicePortBody(sp, vlan, svlan)[1];
  }

  // ----------------------------------------------------------------- pon-onu-mng

  /** PPPoE, flow and filter commands are read back as printed, and no line as one that it is not. */
  lemma MngReadBack(raw: string, cs: seq<Cmd>)
    requires AllShowable(cs) && Shows(raw, cs)
    ensures Last(PppoeIn, Lines(raw)) == Last(PppoeFields, cs)
    ensures Last(FlowIn, Lines(raw)) == Last(FlowFields, cs)
    ensures Last(FilterIn, Lines(raw)) == Last(FilterFields, cs)
  {
    var lines := Lines(raw);
    forall k | 0 <= k < |cs|
      ensures PppoeIn(lines[k]) == PppoeFields(cs[k])
      ensures FlowIn(lines[k]) == FlowFields(cs[k])
      ensures FilterIn(lines[k]) == FilterFields(cs[k])
    {
      PppoeLine(lines[k], cs[k]);
      FlowLine(lines[k], cs[k]);
      FilterLine(lines[k], cs[k]);
    }
    LastAgrees(PppoeIn, PppoeFields, lines, cs);
    LastAgrees(FlowIn, FlowFields, lines, cs);
    LastAgrees(FilterIn, FilterFields, lines, cs);
  }

  lemma PushReadBack(raw: string, path: OnuPath, c320: bool, vlan: nat, acs: Acs,
                     user: Option<string>, password: Option<string>)
    requires AllShowable(PushBody(c320, vlan, acs, user, password))
    requires Shows(raw, InMng(path, PushBody(c320, vlan, acs, user, password)))
    ensures Last(FlowIn, Lines(raw)) == Some(("1", Decimal(vlan)))
    ensures Last(FilterIn, Lines(raw)) == Some(Decimal(vlan)) && Value(Decimal(vlan)) == vlan
    ensures Last(PppoeIn, Lines(raw))
         == if user.Some? && user.value != "" && password.Some? && password.value != ""
            then Some((user.value, password.value)) else None
  {
    var body := PushBody(c320, vlan, acs, user, password);
    ValueOfDecimal(vlan);
    InMngShowable(path, body);
    MngReadBack(raw, InMng(path, body));
    LastFlow(path, c320, vlan, acs, user, password);
    LastPppoe(path, c320, vlan, acs, user, password);
  }

  lemma InMngShowable(path: OnuPath, body: seq<Cmd>)
    requires AllShowable(body)
    ensures AllShowable(InMng(path, body))
  {
    InMngIndex(path, body);
  }

  lemma LastFlow(path: OnuPath, c320: bool, vlan: nat, acs: Acs, user: Option<string>, password: Option<string>)
    ensures
      var cs := InMng(path, PushBody(c320, vlan, acs, user, password));
      Last(FlowFields, cs) == Some(("1", Decimal(vlan))) && Last(FilterFields, cs) == Some(Decimal(vlan))
  {
    var body := PushBody(c320, vlan, acs, user, password);
    var cs := InMng(path, body);
    var i, j := PushShape(c320, vlan, acs, user, password);
    InMngIndex(path, body);
    forall k | 0 <= k < |cs|
      ensures k != i + 1 ==> FlowFields(cs[k]) == None
      ensures k != j + 1 ==> FilterFields(cs[k]) == None
    {
      if 1 <= k <= |body| { assert cs[k] == body[k - 1]; }
    }
    LastOnly(FlowFields, cs, i + 1);
    LastOnly(FilterFields, cs, j + 1);
  }

  lemma LastPppoe(path: OnuPath, c320: bool, vlan: nat, acs: Acs, user: Option<string>, password: Option<string>)
    ensures
      var part := PppoePart(user, password);
      Last(PppoeFields, InMng(path, PushBody(c320, vlan, acs, user, password)))
      == if part == [] then None else PppoeFields(part[0])
  {
    var body := PushBody(c320, vlan, acs, user, password);
    var cs := InMng(path, body);
    var n, part := |PushHead(c320, vlan)|, PppoePart(user, password);
    PppoeShape(c320, vlan, acs, user, password);
    InMngIndex(path, body);
    forall k | 0 <= k < |cs| && (part == [] || k != n + 1) ensures PppoeFields(cs[k]) == None {
      if 1 <= k <= |body| { assert cs[k] == body[k - 1]; }
    }
    if part == [] {
      LastNone(PppoeFields, cs);
    } else {
      assert body[n] == body[n..n + 1][0];
      LastOnly(PppoeFields, cs, n + 1);
    }
  }

  lemma InMngIndex(path: OnuPath, body: seq<Cmd>)
    ensures
      var cs := InMng(path, body);
      && |cs| == |body| + 2 && cs[0] == PonOnuMng(path) && cs[|body| + 1] == Exit
      && forall k :: 1 <= k <= |body| ==> cs[k] == body[k - 1]
  {
  }

  lemma PppoeShape(c320: bool, vlan: nat, acs: Acs, user: Option<string>, password: Option<string>)
    ensures
      var body := PushBody(c320, vlan, acs, user, password);
      var h, m := |PushHead(c320, vlan)|, PppoePart(user, password);
      && h + |m| <= |body| && |m| <= 1 && body[h..h + |m|] == m
      && forall k :: 0 <= k < |body| && body[k].Pppoe? ==> k == h && |m| == 1
  {
  }

  // ---------------------------------------------------------- lines copied whole

  function OptWords(line: Option<string>): Option<seq<string>> {
    if line.Some? then Some(Words(line.value)) else None
  }

  function WordLists(lines: seq<string>): seq<seq<string>> {
    seq(|lines|, k requires 0 <= k < |lines| => Words(lines[k]))
  }

  /** A command's words, when one of them contains the phrase. */
  function Holding(phrase: string): Cmd -> Option<seq<string>> {
    c => if AnyContains(LineOf(c), phrase) then Some(LineOf(c)) else None
  }

  function HoldingBoth(phrase: string, other: string): Cmd -> Option<seq<string>> {
    c => if AnyContains(LineOf(c), other) then Holding(phrase)(c) else None
  }

  lemma {:induction false} CopiesAgree(
    f: string -> Option<string>, g: Cmd -> Option<seq<string>>, lines: seq<string>, cs: seq<Cmd>)
    requires |lines| == |cs| && forall k :: 0 <= k < |cs| ==> OptWords(f(lines[k])) == g(cs[k])
    ensures OptWords(Last(f, lines)) == Last(g, cs) && WordLists(Every(f, lines)) == Every(g, cs)
    decreases |cs|
  {
    if cs != [] {
      var n := |cs| - 1;
      CopiesAgree(f, g, lines[..n], cs[..n]);
      assert OptWords(f(lines[n])) == g(cs[n]);
    }
  }

  lemma LineHolds(line: string, c: Cmd, phrase: string)
    requires Words(line) == LineOf(c) && IsWord(phrase)
    ensures Contains(Strip(line), phrase) <==> AnyContains(LineOf(c), phrase)
    ensures OptWords(LineWith(line, phrase)) == Holding(phrase)(c)
  {
    StripKeepsWords(line);
    ContainsByWords(Strip(line), phrase);
  }

  lemma Copied(f: string -> Option<string>, phrase: string, raw: string, cs: seq<Cmd>)
    requires IsWord(phrase) && Shows(raw, cs) && forall line :: f(line) == LineWith(line, phrase)
    ensures OptWords(Last(f, Lines(raw))) == Last(Holding(phrase), cs)
    ensures WordLists(Every(f, Lines(raw))) == Every(Holding(phrase), cs)
  {
    var lines := Lines(raw);
    forall k | 0 <= k < |cs| ensures OptWords(f(lines[k])) == Holding(phrase)(cs[k]) {
      LineHolds(lines[k], cs[k], phrase);
    }
    CopiesAgree(f, Holding(phrase), lines, cs);
  }

  lemma BindingCopied(raw: string, cs: seq<Cmd>)
    requires Shows(raw, cs)
    ensures OptWords(Last(GemportFlowIn, Lines(raw))) == Last(HoldingBoth("gemport", "flow"), cs)
  {
    var lines := Lines(raw);
    forall k | 0 <= k < |cs| ensures OptWords(GemportFlowIn(lines[k])) == HoldingBoth("gemport", "flow")(cs[k]) {
      LineHolds(lines[k], cs[k], "gemport");
      LineHolds(lines[k], cs[k], "flow");
    }
    CopiesAgree(GemportFlowIn, HoldingBoth("gemport", "flow"), lines, cs);
  }

  /** A setting is the line of the last command some word of which contains the phrase, keyword or value. */
  ghost predicate LastCopied(copy: Option<string>, phrase: string, cs: seq<Cmd>) {
    OptWords(copy) == Last(Holding(phrase), cs)
  }

  /** A list holds the lines of all such commands, in order. */
  ghost predicate AllCopied(copies: seq<string>, phrase: string, cs: seq<Cmd>) {
    WordLists(copies) == Every(Holding(phrase), cs)
  }

  lemma SwitchportBindCopied(raw: string, cs: seq<Cmd>)
    requires Shows(raw, cs)
    ensures LastCopied(CopiesOf(Lines(raw)).switchportBind, "switchport-bind", cs)
  {
    Copied(SwitchportBindIn, "switchport-bind", raw, cs);
  }

  lemma FilterModeCopied(raw: string, cs: seq<Cmd>)
    requires Shows(raw, cs)
    ensures LastCopied(CopiesOf(Lines(raw)).filterMode, "vlan-filter-mode", cs)
  {
    Copied(FilterModeIn, "vlan-filter-mode", raw, cs);
  }

  lemma FirewallCopied(raw: string, cs: seq<Cmd>)
    requires Shows(raw, cs)
    ensures LastCopied(CopiesOf(Lines(raw)).firewall, "firewall", cs)
  {
    Copied(FirewallIn, "firewall", raw, cs);
  }

  lemma RxThresholdCopied(raw: string, cs: seq<Cmd>)
    requires Shows(raw, cs)
    ensures LastCopied(CopiesOf(Lines(raw)).rxThreshold, "rx-optical-thresh", cs)
  {
    Copied(RxThresholdIn, "rx-optical-thresh", raw, cs);
  }

  lemma OnuVlanCopied(raw: string, cs: seq<Cmd>)
    requires Shows(raw, cs)
    ensures LastCopied(CopiesOf(Lines(raw)).onuVlan, ONU_VLAN, cs)
  {
    Copied(OnuVlanIn, ONU_VLAN, raw, cs);
  }

  lemma WanIpCopied(raw: string, cs: seq<Cmd>)
    requires Shows(raw, cs)
    ensures LastCopied(CopiesOf(Lines(raw)).wanIp, "wan-ip", cs)
  {
    Copied(WanIpIn, "wan-ip", raw, cs);
  }

  lemma SecurityCopied(raw: string, cs: seq<Cmd>)
    requires Shows(raw, cs)
    ensures AllCopied(CopiesOf(Lines(raw)).security, "security-mgmt", cs)
  {
    Copied(SecurityIn, "security-mgmt", raw, cs);
  }

  lemma Tr069Copied(raw: string, cs: seq<Cmd>)
    requires Shows(raw, cs)
    ensures AllCopied(CopiesOf(Lines(raw)).tr069, "tr069-mgmt", cs)
  {
    Copied(Tr069In, "tr069-mgmt", raw, cs);
  }

  /** The lines copied whole are those of the commands some word of which contains the phrase, be it a keyword or
      a value: of the last one, or of all of them in order. */
  lemma CopiesReadBack(raw: string, cs: seq<Cmd>)
    requires Shows(raw, cs)
    ensures
      var c := CopiesOf(Lines(raw));
      && OptWords(c.gemportFlow) == Last(HoldingBoth("gemport", "flow"), cs)
      && LastCopied(c.switchportBind, "switchport-bind", cs)
      && LastCopied(c.filterMode, "vlan-filter-mode", cs)
      && LastCopied(c.firewall, "firewall", cs)
      && LastCopied(c.rxThreshold, "rx-optical-thresh", cs)
      && LastCopied(c.onuVlan, ONU_VLAN, cs)
      && LastCopied(c.wanIp, "wan-ip", cs)
      && AllCopied(c.security, "security-mgmt", cs)
      && AllCopied(c.tr069, "tr069-mgmt", cs)
  {
    BindingCopied(raw, cs);
    SwitchportBindCopied(raw, cs);
    FilterModeCopied(raw, cs);
    FirewallCopied(raw, cs);
    RxThresholdCopied(raw, cs);
    OnuVlanCopied(raw, cs);
    WanIpCopied(raw, cs);
    SecurityCopied(raw, cs);
    Tr069Copied(raw, cs);
  }
}
