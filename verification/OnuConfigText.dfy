/**
 The text of the driver's commands, as a running configuration shows it, and the
 parsers that take its fields apart again.
 */
module OnuConfigText {
  import opened Options
  import opened Text
  import opened LinePatterns
  import opened LineWords
  import opened OnuCommands

  // ---------------------------------------------------------------------- printing

  function KnobWords(k: Knob): seq<string> {
    match k
    case VoipSip => ["voip", "protocol", "sip"]
    case RxThreshold =>
      ["interface", "pon", "pon_0/1", "rx-optical-thresh", "lower", "-24.0", "upper", "ont-internal-policy"]
    case FlowMode => ["flow", "mode", "1", "tag-filter", "vlan-filter", "untag-filter", "discard"]
    case GemportFlow => ["gemport", "1", "flow", "1", "dot1p-list", "0"]
    case SwitchportBind => ["switchport-bind", "switch_0/1", "iphost", "1"]
    case FilterMode => ["vlan-filter-mode", "iphost", "1", "tag-filter", "vlan-filter", "untag-filter", "discard"]
    case Firewall => ["firewall", "enable", "level", "low", "anti-hack", "disable"]
    case Tr069Unlock => ["tr069-mgmt", "1", "state", "unlock"]
    case Security1 => ["security-mgmt", "1", "state", "enable", "mode", "forward", "protocol", "web"]
    case Security2C320 => ["security-mgmt", "2", "state", "enable", "ingress-type", "lan", "protocol", "web"]
    case Security2 =>
      ["security-mgmt", "2", "state", "enable", "mode", "forward", "ingress-type", "lan", "protocol", "web"]
    case Security3 => ["security-mgmt", "3", "state", "enable", "ingress-type", "lan", "protocol", "telnet"]
    case Security4 => ["security-mgmt", "4", "state", "enable", "protocol", "telnet"]
  }

  function PathWord(p: OnuPath): string {
    "gpon-onu_" + Decimal(p.frame) + "/" + Decimal(p.slot) + "/" + Decimal(p.port) + ":" + Decimal(p.onuId)
  }

  function NamePart(name: Option<string>): seq<string> {
    if name.Some? then ["name", name.value] else []
  }

  function LineOf(c: Cmd): seq<string> {
    match c
    case Interface(p) => ["interface", PathWord(p)]
    case PonOnuMng(p) => ["pon-onu-mng", PathWord(p)]
    case Exit => ["exit"]
    case Tcont(t, name, profile) => ["tcont", Decimal(t), "name", name, "profile", profile]
    case TcontGap(t) => ["tcont", Decimal(t), "gap", "mode2"]
    case Gemport(g, name, t) => ["gemport", Decimal(g)] + NamePart(name) + ["tcont", Decimal(t), "queue", "1"]
    case SwitchportMode => ["switchport", "mode", "hybrid", "vport", "1"]
    case ServicePort(sp, v, s) =>
      ["service-port", Decimal(sp), "vport", "1", "user-vlan", Decimal(v), "vlan", Decimal(v)]
      + if s.Some? then ["svlan", Decimal(s.value)] else []
    case Flow(v) => ["flow", "1", "pri", "0", "vlan", Decimal(v)]
    case NoFlow(v) => ["no", "flow", "1", "pri", "0", "vlan", Decimal(v)]
    case VlanFilter(v) => ["vlan-filter", "iphost", "1", "pri", "0", "vlan", Decimal(v)]
    case NoVlanFilter(v) => ["no", "vlan-filter", "iphost", "1", "pri", "0", "vlan", Decimal(v)]
    case Pppoe(u, p) => ["pppoe", "1", "nat", "enable", "user", u, "password", p]
    case Tr069Acs(url, u, p) => ["tr069-mgmt", "1", "acs", url, "validate", "basic", "username", u, "password", p]
    case Setting(k) => KnobWords(k)
  }

  /** A configuration shows settings, not removals, and the strings in them are single words. */
  predicate Showable(c: Cmd) {
    match c
    case NoFlow(_) => false
    case NoVlanFilter(_) => false
    case Tcont(_, name, profile) => IsWord(name) && IsWord(profile)
    case Gemport(_, name, _) => name.Some? ==> IsWord(name.value)
    case Pppoe(u, p) => IsWord(u) && IsWord(p)
    case Tr069Acs(url, u, p) => IsWord(url) && IsWord(u) && IsWord(p)
    case _ => true
  }

  predicate AllShowable(cs: seq<Cmd>) {
    forall k :: 0 <= k < |cs| ==> Showable(cs[k])
  }

  /** The text has a line for each command, with its words and spacing of any kind. */
  predicate Shows(raw: string, cs: seq<Cmd>) {
    var lines := Lines(raw);
    |lines| == |cs| && forall k :: 0 <= k < |cs| ==> Words(lines[k]) == LineOf(cs[k])
  }

  lemma PathIsWord(p: OnuPath)
    ensures IsWord(PathWord(p))
  {
    NumberIsWord(p.frame);
    NumberIsWord(p.slot);
    NumberIsWord(p.port);
    NumberIsWord(p.onuId);
  }

  lemma VoipKnob()
    ensures AllWords(KnobWords(VoipSip))
  {
  }

  lemma WordsConcat(a: seq<string>, b: seq<string>)
    requires AllWords(a) && AllWords(b)
    ensures AllWords(a + b)
  {
  }

  lemma RadioWords()
    ensures AllWords(["rx-optical-thresh", "lower", "-24.0", "upper", "ont-internal-policy"])
  {
  }

  lemma RadioKnob()
    ensures AllWords(KnobWords(RxThreshold))
  {
    var a, b := ["interface", "pon", "pon_0/1"], ["rx-optical-thresh", "lower", "-24.0", "upper", "ont-internal-policy"];
    RadioWords();
    WordsConcat(a, b);
    assert KnobWords(RxThreshold) == a + b;
  }

  lemma FlowKnobs(k: Knob)
    requires k.FlowMode? || k.GemportFlow?
    ensures AllWords(KnobWords(k))
  {
  }

  lemma BindKnob()
    ensures AllWords(KnobWords(SwitchportBind))
  {
  }

  lemma FilterKnob()
    ensures AllWords(KnobWords(FilterMode))
  {
  }

  lemma AccessKnobs(k: Knob)
    requires k.Firewall? || k.Tr069Unlock?
    ensures AllWords(KnobWords(k))
  {
  }

  lemma SecurityFirstKnobs(k: Knob)
    requires k.Security1? || k.Security2C320?
    ensures AllWords(KnobWords(k))
  {
  }

  lemma SecuritySecondKnobs(k: Knob)
    requires k.Security2?
    ensures AllWords(KnobWords(k))
  {
  }

  lemma SecurityLastKnobs(k: Knob)
    requires k.Security3? || k.Security4?
    ensures AllWords(KnobWords(k))
  {
  }

  lemma KnobWordsAreWords(k: Knob)
    ensures AllWords(KnobWords(k))
  {
    if k.VoipSip? { VoipKnob(); }
    if k.RxThreshold? { RadioKnob(); }
    if k.FlowMode? || k.GemportFlow? { FlowKnobs(k); }
    if k.SwitchportBind? { BindKnob(); }
    if k.FilterMode? { FilterKnob(); }
    if k.Firewall? || k.Tr069Unlock? { AccessKnobs(k); }
    if k.Security1? || k.Security2C320? { SecurityFirstKnobs(k); }
    if k.Security2? { SecuritySecondKnobs(k); }
    if k.Security3? || k.Security4? { SecurityLastKnobs(k); }
  }

  lemma TcontLineIsWords(c: Cmd)
    requires Showable(c) && c.Tcont?
    ensures AllWords(LineOf(c))
  {
    NumberIsWord(c.tcont);
  }

  lemma GapLineIsWords(c: Cmd)
    requires c.TcontGap?
    ensures AllWords(LineOf(c))
  {
    NumberIsWord(c.tcont);
  }

  lemma SwitchportLineIsWords()
    ensures AllWords(LineOf(SwitchportMode))
  {
  }

  lemma GemportLineIsWords(c: Cmd)
    requires Showable(c) && c.Gemport?
    ensures AllWords(LineOf(c))
  {
    NumberIsWord(c.gem);
    NumberIsWord(c.tcont);
  }

  lemma ServicePortLineIsWords(c: Cmd)
    requires c.ServicePort?
    ensures AllWords(LineOf(c))
  {
    NumberIsWord(c.sp);
    NumberIsWord(c.vlan);
    if c.svlan.Some? { NumberIsWord(c.svlan.value); }
  }

  lemma FlowLineIsWords(c: Cmd)
    requires c.Flow?
    ensures AllWords(LineOf(c))
  {
    NumberIsWord(c.vlan);
  }

  lemma FilterLineIsWords(c: Cmd)
    requires c.VlanFilter?
    ensures AllWords(LineOf(c))
  {
    NumberIsWord(c.vlan);
  }

  lemma PppoeLineIsWords(c: Cmd)
    requires Showable(c) && c.Pppoe?
    ensures AllWords(LineOf(c))
  {
  }

  lemma AcsLineIsWords(c: Cmd)
    requires Showable(c) && c.Tr069Acs?
    ensures AllWords(LineOf(c))
  {
  }

  lemma ContextLineIsWords(c: Cmd)
    requires SwitchesContext(c)
    ensures AllWords(LineOf(c))
  {
    if c.Interface? || c.PonOnuMng? { PathIsWord(c.path); }
  }

  lemma LineIsWords(c: Cmd)
    requires Showable(c)
    ensures AllWords(LineOf(c))
  {
    if SwitchesContext(c) { ContextLineIsWords(c); }
    else if c.Setting? { KnobWordsAreWords(c.knob); }
    else if c.ServicePort? { ServicePortLineIsWords(c); }
    else if c.Tr069Acs? { AcsLineIsWords(c); }
    else if c.Flow? { FlowLineIsWords(c); }
    else if c.VlanFilter? { FilterLineIsWords(c); }
    else if c.Pppoe? { PppoeLineIsWords(c); }
    else if c.Gemport? { GemportLineIsWords(c); }
    else if c.Tcont? { TcontLineIsWords(c); }
    else if c.TcontGap? { GapLineIsWords(c); }
    else { SwitchportLineIsWords(); }
  }
}
