/**
 The ZXAN driver's configuration commands and an interpreter for them over the
 device's per-ONU configuration.
 */
module OnuCommands {
  import opened Options
  import opened Text
  import opened FlowListing

  datatype OnuPath = OnuPath(frame: nat, slot: nat, port: nat, onuId: nat)

  /** The fixed lines of an OMCI profile. */
  datatype Knob =
    | VoipSip | RxThreshold | FlowMode | GemportFlow | SwitchportBind | FilterMode | Firewall
    | Tr069Unlock | Security1 | Security2C320 | Security2 | Security3 | Security4

  datatype Cmd =
    | Interface(path: OnuPath)
    | PonOnuMng(path: OnuPath)
    | Exit
    | Tcont(tcont: nat, name: string, profile: string)
    | TcontGap(tcont: nat)
    | Gemport(gem: nat, gemName: Option<string>, tcont: nat)
    | SwitchportMode
    | ServicePort(sp: nat, vlan: nat, svlan: Option<nat>)
    | Flow(vlan: nat)
    | NoFlow(vlan: nat)
    | VlanFilter(vlan: nat)
    | NoVlanFilter(vlan: nat)
    | Pppoe(user: string, password: string)
    | Tr069Acs(url: string, acsUser: string, acsPassword: string)
    | Setting(knob: Knob)

  predicate SwitchesContext(c: Cmd) { c.Interface? || c.PonOnuMng? || c.Exit? }

  predicate AllSettings(cs: seq<Cmd>) {
    forall k :: 0 <= k < |cs| ==> !SwitchesContext(cs[k])
  }

  // ------------------------------------------------------------------ device

  datatype Gem = Gem(name: Option<string>, tcont: nat)
  datatype Sp = Sp(vlan: nat, svlan: Option<nat>)

  /** `flows` and `filters` hold (priority, VLAN) pairs of flow 1 and of the iphost-1 filter. */
  datatype OnuConfig = OnuConfig(
    tconts: map<nat, (string, string)>, gaps: set<nat>, gemports: map<nat, Gem>, hybrid: bool,
    servicePorts: map<nat, Sp>, flows: set<(nat, nat)>, filters: set<(nat, nat)>,
    pppoe: Option<(string, string)>, acs: Option<(string, string, string)>, settings: set<Knob>)

  const BLANK := OnuConfig(map[], {}, map[], false, map[], {}, {}, None, None, {})

  type Configs = map<OnuPath, OnuConfig>

  function ConfigOf(cs: Configs, p: OnuPath): OnuConfig {
    if p in cs then cs[p] else BLANK
  }

  datatype Context = Top | OnuInterface(path: OnuPath) | OnuMng(path: OnuPath)

  /** What a setting does to the ONU; removing an absent entry does nothing. */
  function Effect(o: OnuConfig, c: Cmd): OnuConfig {
    match c
    case Tcont(t, name, profile) => o.(tconts := o.tconts[t := (name, profile)])
    case TcontGap(t) => o.(gaps := o.gaps + {t})
    case Gemport(g, name, t) => o.(gemports := o.gemports[g := Gem(name, t)])
    case SwitchportMode => o.(hybrid := true)
    case ServicePort(sp, vlan, svlan) => o.(servicePorts := o.servicePorts[sp := Sp(vlan, svlan)])
    case Flow(v) => o.(flows := o.flows + {(0, v)})
    case NoFlow(v) => o.(flows := o.flows - {(0, v)})
    case VlanFilter(v) => o.(filters := o.filters + {(0, v)})
    case NoVlanFilter(v) => o.(filters := o.filters - {(0, v)})
    case Pppoe(u, p) => o.(pppoe := Some((u, p)))
    case Tr069Acs(url, u, p) => o.(acs := Some((url, u, p)))
    case Setting(knob) => o.(settings := o.settings + {knob})
    case _ => o
  }

  function Effects(o: OnuConfig, cs: seq<Cmd>): OnuConfig
    decreases |cs|
  {
    if cs == [] then o else Effects(Effect(o, cs[0]), cs[1..])
  }

  lemma {:induction false} EffectsConcat(o: OnuConfig, a: seq<Cmd>, b: seq<Cmd>)
    ensures Effects(o, a + b) == Effects(Effects(o, a), b)
    decreases |a|
  {
    if a == [] {
      assert a + b == b;
    } else {
      assert (a + b)[1..] == a[1..] + b;
      EffectsConcat(Effect(o, a[0]), a[1..], b);
    }
  }

  /** Which commands the device refuses, possibly depending on everything configured so far. */
  type Firmware = (Configs, Context, Cmd) -> bool

  /** The session's state after some commands: configuration, context, and whether one was refused. */
  datatype Session = Session(configs: Configs, context: Context, ok: bool)

  function Perform(s: Session, c: Cmd): Session {
    match c
    case Interface(p) => s.(context := OnuInterface(p))
    case PonOnuMng(p) => s.(context := OnuMng(p))
    case Exit => s.(context := Top)
    case _ =>
      if s.context.Top? then s.(ok := false)
      else s.(configs := s.configs[s.context.path := Effect(ConfigOf(s.configs, s.context.path), c)])
  }

  function Send(refuses: Firmware, s: Session, c: Cmd): Session {
    if !s.ok then s
    else if refuses(s.configs, s.context, c) then s.(ok := false)
    else Perform(s, c)
  }

  function SendAll(refuses: Firmware, s: Session, cs: seq<Cmd>): Session
    decreases |cs|
  {
    if cs == [] then s else SendAll(refuses, Send(refuses, s, cs[0]), cs[1..])
  }

  /** One configuration session: it stops at the first refusal, and leaves the context in any case. */
  function RunSession(refuses: Firmware, configs: Configs, cs: seq<Cmd>): (Configs, bool) {
    var s := SendAll(refuses, Session(configs, Top, true), cs);
    (s.configs, s.ok)
  }

  // --------------------------------------------------------- command lists

  function TcontBody(tcont: nat, profile: string): seq<Cmd> {
    [Tcont(tcont, profile, profile), TcontGap(tcont)]
  }

  /** The part of the line that names the GEM port is left out for an empty name as for none. */
  function GemportBody(gem: nat, tcont: nat, profile: Option<string>): seq<Cmd> {
    [Gemport(gem, if profile.Some? && profile.value != "" then profile else None, tcont)]
  }

  function ServicePortBody(sp: nat, vlan: nat, svlan: Option<nat>): seq<Cmd> {
    var tagged := if svlan.Some? && svlan.value != 0 && svlan.value != vlan then svlan else None;
    [SwitchportMode, ServicePort(sp, vlan, tagged)]
  }

  function InInterface(path: OnuPath, body: seq<Cmd>): seq<Cmd> {
    [Interface(path)] + body + [Exit]
  }

  function InMng(path: OnuPath, body: seq<Cmd>): seq<Cmd> {
    [PonOnuMng(path)] + body + [Exit]
  }

  /** The batch always names the GEM port. */
  function BatchBody(tcont: nat, profile: string, gem: nat, sp: nat, vlan: nat, svlan: Option<nat>): seq<Cmd> {
    TcontBody(tcont, profile) + [Gemport(gem, Some(profile), tcont)] + ServicePortBody(sp, vlan, svlan)
  }

  /** The pair of commands that removes one stale VLAN, for each in turn. */
  function PurgeBody(stale: seq<nat>): seq<Cmd>
    decreases |stale|
  {
    if stale == [] then []
    else PurgeBody(stale[..|stale| - 1]) + [NoFlow(stale[|stale| - 1]), NoVlanFilter(stale[|stale| - 1])]
  }

  datatype Acs = Acs(url: string, user: string, password: string)

  function PppoePart(user: Option<string>, password: Option<string>): seq<Cmd> {
    if user.Some? && user.value != "" && password.Some? && password.value != ""
    then [Pppoe(user.value, password.value)] else []
  }

  function PushHead(c320: bool, vlan: nat): seq<Cmd> {
    (if c320 then [Setting(VoipSip), Setting(RxThreshold)] else [])
    + [Setting(FlowMode), Flow(vlan), Setting(GemportFlow), Setting(SwitchportBind)]
  }

  function PushTail(c320: bool, vlan: nat, acs: Acs): seq<Cmd> {
    [Setting(FilterMode), VlanFilter(vlan), Setting(Firewall), Setting(Tr069Unlock),
     Tr069Acs(acs.url, acs.user, acs.password), Setting(Security1),
     if c320 then Setting(Security2C320) else Setting(Security2), Setting(Security3), Setting(Security4)]
  }

  function PushBody(c320: bool, vlan: nat, acs: Acs, user: Option<string>, password: Option<string>): seq<Cmd> {
    PushHead(c320, vlan) + PppoePart(user, password) + PushTail(c320, vlan, acs)
  }

  /** The listed VLANs other than the target, in listing order. */
  function StaleVlans(listing: seq<nat>, target: nat): seq<nat>
    decreases |listing|
  {
    if listing == [] then []
    else (if listing[0] != target then [listing[0]] else []) + StaleVlans(listing[1..], target)
  }

  /** What a text, or a read that raises, lists. */
  function ListedIn(raw: Option<string>): seq<nat> {
    if raw.Some? then FlowVlans(raw.value) else []
  }
}
