/** The ZXAN driver: methods that build command lists and send them in configuration sessions. */
module OnuDriver {
  import opened Options
  import opened Text
  import opened FlowListing
  import opened OnuCommands
  import opened OnuCommandLaws

  // ------------------------------------------------------------- the driver

  class ZxanDriver {
    const refuses: Firmware
    const c320: bool
    var configs: Configs

    constructor (refuses: Firmware, c320: bool, configs: Configs)
      ensures this.refuses == refuses && this.c320 == c320 && this.configs == configs
    {
      this.refuses, this.c320, this.configs := refuses, c320, configs;
    }

    method ExecuteConfigMode(commands: seq<Cmd>) returns (ok: bool)
      modifies this
      ensures (configs, ok) == RunSession(refuses, old(configs), commands)
    {
      var s := Session(configs, Top, true);
      for k := 0 to |commands|
        invariant SendAll(refuses, s, commands[k..]) == SendAll(refuses, Session(configs, Top, true), commands)
      {
        assert commands[k..][1..] == commands[k + 1..];
        s := Send(refuses, s, commands[k]);
      }
      configs := s.configs;
      ok := s.ok;
    }

    method ConfigureTcont(path: OnuPath, tcont: nat, profile: string) returns (ok: bool)
      modifies this
      ensures (configs, ok) == RunSession(refuses, old(configs), InInterface(path, TcontBody(tcont, profile)))
      ensures Unchanged(old(configs), configs, path)
      ensures
        var o := ConfigOf(old(configs), path);
        ok ==> ConfigOf(configs, path) == o.(
          tconts := o.tconts[tcont := (profile, profile)], gaps := o.gaps + {tcont})
    {
      InterfaceEffect(refuses, configs, path, TcontBody(tcont, profile));
      TwoEffects(ConfigOf(configs, path), Tcont(tcont, profile, profile), TcontGap(tcont));
      var commands := [Interface(path), Tcont(tcont, profile, profile), TcontGap(tcont), Exit];
      assert commands == InInterface(path, TcontBody(tcont, profile));
      ok := ExecuteConfigMode(commands);
    }

    method ConfigureGemport(path: OnuPath, gem: nat, tcont: nat, profile: Option<string>) returns (ok: bool)
      modifies this
      ensures (configs, ok) == RunSession(refuses, old(configs), InInterface(path, GemportBody(gem, tcont, profile)))
      ensures Unchanged(old(configs), configs, path)
      ensures
        var o, named := ConfigOf(old(configs), path), profile.Some? && profile.value != "";
        ok ==> ConfigOf(configs, path) == o.(
          gemports := o.gemports[gem := Gem(if named then profile else None, tcont)])
    {
      InterfaceEffect(refuses, configs, path, GemportBody(gem, tcont, profile));
      OneEffect(ConfigOf(configs, path), GemportBody(gem, tcont, profile)[0]);
      var name := if profile.Some? && profile.value != "" then profile else None;
      var commands := [Interface(path), Gemport(gem, name, tcont), Exit];
      assert commands == InInterface(path, GemportBody(gem, tcont, profile));
      ok := ExecuteConfigMode(commands);
    }

    method CreateServicePort(path: OnuPath, sp: nat, vlan: nat, svlan: Option<nat>) returns (ok: bool)
      modifies this
      ensures (configs, ok) == RunSession(refuses, old(configs), InInterface(path, ServicePortBody(sp, vlan, svlan)))
      ensures Unchanged(old(configs), configs, path)
      ensures
        var o, tagged := ConfigOf(old(configs), path), svlan.Some? && svlan.value != 0 && svlan.value != vlan;
        ok ==> ConfigOf(configs, path) == o.(
          hybrid := true, servicePorts := o.servicePorts[sp := Sp(vlan, if tagged then svlan else None)])
    {
      InterfaceEffect(refuses, configs, path, ServicePortBody(sp, vlan, svlan));
      TwoEffects(ConfigOf(configs, path), SwitchportMode, ServicePortBody(sp, vlan, svlan)[1]);
      var command := ServicePort(sp, vlan, None);
      if svlan.Some? && svlan.value != 0 && svlan.value != vlan {
        command := command.(svlan := svlan);
      }
      var commands := [Interface(path), SwitchportMode, command, Exit];
      assert commands == InInterface(path, ServicePortBody(sp, vlan, svlan));
      ok := ExecuteConfigMode(commands);
    }

    method ConfigureTcontGemportServiceport(
      path: OnuPath, tcont: nat, profile: string, gem: nat, sp: nat, vlan: nat, svlan: Option<nat>) returns (ok: bool)
      modifies this
      ensures (configs, ok)
           == RunSession(refuses, old(configs), InInterface(path, BatchBody(tcont, profile, gem, sp, vlan, svlan)))
      ensures Unchanged(old(configs), configs, path)
      ensures
        var o, tagged := ConfigOf(old(configs), path), svlan.Some? && svlan.value != 0 && svlan.value != vlan;
        ok ==> ConfigOf(configs, path) == o.(
          tconts := o.tconts[tcont := (profile, profile)], gaps := o.gaps + {tcont},
          gemports := o.gemports[gem := Gem(Some(profile), tcont)], hybrid := true,
          servicePorts := o.servicePorts[sp := Sp(vlan, if tagged then svlan else None)])
    {
      InterfaceEffect(refuses, configs, path, BatchBody(tcont, profile, gem, sp, vlan, svlan));
      BatchEffect(ConfigOf(configs, path), tcont, profile, gem, Some(profile), sp, vlan, svlan);
      var command := ServicePort(sp, vlan, None);
      if svlan.Some? && svlan.value != 0 && svlan.value != vlan {
        command := command.(svlan := svlan);
      }
      var commands := [
        Interface(path), Tcont(tcont, profile, profile), TcontGap(tcont), Gemport(gem, Some(profile), tcont),
        SwitchportMode, command, Exit];
      assert commands == InInterface(path, BatchBody(tcont, profile, gem, sp, vlan, svlan));
      ok := ExecuteConfigMode(commands);
    }

    /** `raw` is the ONU's running configuration, or None when the read raises. */
    method GetStaleFlowVlans(raw: Option<string>, target: nat) returns (stale: seq<nat>)
      ensures stale == StaleVlans(ListedIn(raw), target)
      ensures raw.None? ==> stale == []
      ensures raw.Some? ==> forall w :: w in stale <==> w != target && w in FlowVlans(raw.value)
    {
      forall w { StaleMembers(ListedIn(raw), target, w); }
      stale := [];
      if raw.None? {
        return;
      }
      var rest := raw.value;
      while rest != ""
        invariant stale + StaleIn(rest, target) == StaleIn(raw.value, target)
        decreases |rest|
      {
        StaleStep(stale, rest, target);
        var m := FlowMatch(rest);
        if m.Some? {
          if Value(m.value.0) != target {
            stale := stale + [Value(m.value.0)];
          }
          rest := m.value.1;
        } else {
          rest := rest[1..];
        }
      }
    }

    /** Purge what is stale, ignoring failure, then push the full profile. */
    method ConfigureOmci(path: OnuPath, vlan: nat, acs: Acs, user: Option<string>, password: Option<string>,
                         raw: Option<string>) returns (purged: bool, ok: bool)
      modifies this
      ensures
        var stale := StaleVlans(ListedIn(raw), vlan);
        var (mid, p) := if stale == [] then (old(configs), true)
                        else RunSession(refuses, old(configs), InMng(path, PurgeBody(stale)));
        && purged == p
        && (configs, ok) == RunSession(refuses, mid, InMng(path, PushBody(c320, vlan, acs, user, password)))
      ensures Unchanged(old(configs), configs, path)
      ensures
        var o, o' := ConfigOf(old(configs), path), ConfigOf(configs, path);
        ok ==>
          && o'.settings == o.settings
             + {FlowMode, GemportFlow, SwitchportBind, FilterMode, Firewall, Tr069Unlock, Security1, Security3, Security4}
             + (if c320 then {VoipSip, RxThreshold, Security2C320} else {Security2})
          && o'.acs == Some((acs.url, acs.user, acs.password))
          && o'.pppoe == (if user.Some? && user.value != "" && password.Some? && password.value != ""
                          then Some((user.value, password.value)) else o.pppoe)
          && (0, vlan) in o'.flows && o'.flows <= o.flows + {(0, vlan)}
          && (0, vlan) in o'.filters && o'.filters <= o.filters + {(0, vlan)}
          && o' == o.(settings := o'.settings, acs := o'.acs, pppoe := o'.pppoe, flows := o'.flows, filters := o'.filters)
      ensures ok && purged && Lists(ListedIn(raw), ConfigOf(old(configs), path)) ==>
        OmciResult(ConfigOf(old(configs), path), ConfigOf(configs, path), vlan)
    {
      OmciSessions(refuses, configs, path, ListedIn(raw), vlan, c320, acs, user, password);
      if Lists(ListedIn(raw), ConfigOf(configs, path)) {
        OmciRun(refuses, configs, path, ListedIn(raw), vlan, c320, acs, user, password);
      }
      var stale := GetStaleFlowVlans(raw, vlan);
      purged := true;
      if stale != [] {
        var purge := BuildPurge(path, stale);
        purged := ExecuteConfigMode(purge);
      }
      PushProfile(ConfigOf(configs, path), c320, vlan, acs, user, password);
      var commands := BuildPush(path, vlan, acs, user, password);
      ok := ExecuteConfigMode(commands);
    }

    method BuildPurge(path: OnuPath, stale: seq<nat>) returns (purge: seq<Cmd>)
      ensures purge == InMng(path, PurgeBody(stale))
    {
      purge := [PonOnuMng(path)];
      for k := 0 to |stale|
        invariant purge == [PonOnuMng(path)] + PurgeBody(stale[..k])
      {
        assert stale[..k + 1][..k] == stale[..k];
        purge := purge + [NoFlow(stale[k])];
        purge := purge + [NoVlanFilter(stale[k])];
      }
      assert stale[..|stale|] == stale;
      purge := purge + [Exit];
    }

    method BuildPush(path: OnuPath, vlan: nat, acs: Acs, user: Option<string>, password: Option<string>)
      returns (commands: seq<Cmd>)
      ensures commands == InMng(path, PushBody(c320, vlan, acs, user, password))
    {
      commands := [PonOnuMng(path)];
      if c320 {
        commands := commands + [Setting(VoipSip), Setting(RxThreshold)];
      }
      commands := commands + [Setting(FlowMode), Flow(vlan), Setting(GemportFlow), Setting(SwitchportBind)];
      assert commands == [PonOnuMng(path)] + PushHead(c320, vlan);
      if user.Some? && user.value != "" && password.Some? && password.value != "" {
        commands := commands + [Pppoe(user.value, password.value)];
      }
      ghost var front := commands;
      assert front == [PonOnuMng(path)] + PushHead(c320, vlan) + PppoePart(user, password);
      var tail := [
        Setting(FilterMode), VlanFilter(vlan), Setting(Firewall), Setting(Tr069Unlock),
        Tr069Acs(acs.url, acs.user, acs.password), Setting(Security1)];
      if c320 {
        tail := tail + [Setting(Security2C320)];
      } else {
        tail := tail + [Setting(Security2)];
      }
      tail := tail + [Setting(Security3), Setting(Security4)];
      assert tail == PushTail(c320, vlan, acs);
      Regroup([PonOnuMng(path)], PushHead(c320, vlan), PppoePart(user, password), tail, [Exit]);
      commands := commands + tail + [Exit];
    }
  }

  ghost function StaleIn(s: string, target: nat): seq<nat> {
    StaleVlans(FlowVlans(s), target)
  }

  lemma StaleStep(stale: seq<nat>, s: string, target: nat)
    requires s != ""
    ensures stale + StaleIn(s, target)
         == (if FlowMatch(s).None? then stale + StaleIn(s[1..], target)
             else
               var vlan := Value(FlowMatch(s).value.0);
               (if vlan != target then stale + [vlan] else stale) + StaleIn(FlowMatch(s).value.1, target))
  {
    var m := FlowMatch(s);
    if m.Some? {
      var vlan, listing := Value(m.value.0), FlowVlans(m.value.1);
      assert ([vlan] + listing)[1..] == listing;
      Associate(stale, [vlan], StaleVlans(listing, target));
    }
  }

  lemma Regroup<T>(a: seq<T>, b: seq<T>, c: seq<T>, d: seq<T>, e: seq<T>)
    ensures a + b + c + d + e == a + (b + c + d) + e
  {
  }
}
