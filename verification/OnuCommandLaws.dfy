/** Batching preserves meaning, and the stale-VLAN purge converges. */
module OnuCommandLaws {
  import opened Options
  import opened OnuCommands
  import opened FlowListing
  import opened Text

  // ------------------------------------------------------------------ sessions

  lemma {:induction false} SendAllConcat(refuses: Firmware, s: Session, a: seq<Cmd>, b: seq<Cmd>)
    ensures SendAll(refuses, s, a + b) == SendAll(refuses, SendAll(refuses, s, a), b)
    decreases |a|
  {
    if a == [] {
      assert a + b == b;
    } else {
      assert (a + b)[1..] == a[1..] + b;
      SendAllConcat(refuses, Send(refuses, s, a[0]), a[1..], b);
    }
  }

  lemma {:induction false} Stopped(refuses: Firmware, s: Session, cs: seq<Cmd>)
    requires !s.ok
    ensures SendAll(refuses, s, cs) == s
    decreases |cs|
  {
    if cs != [] { Stopped(refuses, s, cs[1..]); }
  }

  lemma SendAllOne(refuses: Firmware, s: Session, c: Cmd)
    ensures SendAll(refuses, s, [c]) == Send(refuses, s, c)
  {
    assert [c][1..] == [];
  }

  ghost predicate Unchanged(cs: Configs, cs': Configs, path: OnuPath) {
    forall q :: q != path ==> ConfigOf(cs, q) == ConfigOf(cs', q)
  }

  /** Settings sent in a context: the context stays, other ONUs stay, and a prefix takes effect. */
  lemma {:induction false} SettingsSent(refuses: Firmware, s: Session, cs: seq<Cmd>, path: OnuPath) returns (k: nat)
    requires AllSettings(cs) && s.ok && (s.context == OnuInterface(path) || s.context == OnuMng(path))
    ensures
      var s' := SendAll(refuses, s, cs);
      && k <= |cs| && (s'.ok <==> k == |cs|) && s'.context == s.context
      && ConfigOf(s'.configs, path) == Effects(ConfigOf(s.configs, path), cs[..k])
      && Unchanged(s.configs, s'.configs, path)
    decreases |cs|
  {
    if cs == [] {
      k := 0;
    } else {
      var s1 := Send(refuses, s, cs[0]);
      if !s1.ok {
        Stopped(refuses, s1, cs[1..]);
        k := 0;
        assert cs[..0] == [];
      } else {
        var n := SettingsSent(refuses, s1, cs[1..], path);
        k := n + 1;
        assert cs[..k] == [cs[0]] + cs[1..][..n];
        assert cs[..k][1..] == cs[1..][..n];
      }
    }
  }

  /** Entering and leaving this ONU's interface does not depend on what is configured. */
  ghost predicate ContextCommandsAreStable(refuses: Firmware, path: OnuPath) {
    && (forall cs, ds :: refuses(cs, Top, Interface(path)) == refuses(ds, Top, Interface(path)))
    && (forall cs :: !refuses(cs, OnuInterface(path), Exit))
  }

  /** Sessions one after another, up to the first that fails. */
  function Then(refuses: Firmware, r: (Configs, bool), cs: seq<Cmd>): (Configs, bool) {
    if r.1 then RunSession(refuses, r.0, cs) else r
  }

  lemma InterfaceSession(refuses: Firmware, configs: Configs, path: OnuPath, body: seq<Cmd>)
    requires AllSettings(body) && ContextCommandsAreStable(refuses, path)
    ensures
      var s := SendAll(refuses, Session(configs, OnuInterface(path), true), body);
      RunSession(refuses, configs, InInterface(path, body))
      == if refuses(configs, Top, Interface(path)) then (configs, false) else (s.configs, s.ok)
  {
    var s0 := Session(configs, Top, true);
    var s1 := Send(refuses, s0, Interface(path));
    SendAllConcat(refuses, s0, [Interface(path)] + body, [Exit]);
    SendAllConcat(refuses, s0, [Interface(path)], body);
    SendAllOne(refuses, s0, Interface(path));
    SendAllOne(refuses, SendAll(refuses, s1, body), Exit);
    if s1.ok {
      var k := SettingsSent(refuses, s1, body, path);
    } else {
      Stopped(refuses, s1, body);
    }
  }

  /** One session for two groups of settings means the same as a session for each, refusals included: the same
      partial configuration is left behind when some command is refused. */
  lemma SplitSession(refuses: Firmware, configs: Configs, path: OnuPath, a: seq<Cmd>, b: seq<Cmd>)
    requires AllSettings(a) && AllSettings(b) && ContextCommandsAreStable(refuses, path)
    ensures RunSession(refuses, configs, InInterface(path, a + b))
         == Then(refuses, RunSession(refuses, configs, InInterface(path, a)), InInterface(path, b))
  {
    var s := Session(configs, OnuInterface(path), true);
    var sa := SendAll(refuses, s, a);
    InterfaceSession(refuses, configs, path, a + b);
    InterfaceSession(refuses, configs, path, a);
    InterfaceSession(refuses, sa.configs, path, b);
    SendAllConcat(refuses, s, a, b);
    var k := SettingsSent(refuses, s, a, path);
    if !sa.ok {
      Stopped(refuses, sa, b);
    }
  }

  /** The three separate calls of the driver, an exception ending the sequence. */
  function Separately(
    refuses: Firmware, configs: Configs, path: OnuPath, tcont: nat, profile: string, gem: nat,
    gemProfile: Option<string>, sp: nat, vlan: nat, svlan: Option<nat>): (Configs, bool)
  {
    var r1 := RunSession(refuses, configs, InInterface(path, TcontBody(tcont, profile)));
    var r2 := Then(refuses, r1, InInterface(path, GemportBody(gem, tcont, gemProfile)));
    Then(refuses, r2, InInterface(path, ServicePortBody(sp, vlan, svlan)))
  }

  /** The batch holds the commands of the three sessions if and only if the profile has a name. */
  lemma BatchIsTheThreeIff(tcont: nat, profile: string, gem: nat, sp: nat, vlan: nat, svlan: Option<nat>)
    ensures BatchBody(tcont, profile, gem, sp, vlan, svlan)
         == TcontBody(tcont, profile) + GemportBody(gem, tcont, Some(profile)) + ServicePortBody(sp, vlan, svlan)
       <==> profile != ""
  {
    assert BatchBody(tcont, profile, gem, sp, vlan, svlan)[2] == Gemport(gem, Some(profile), tcont);
  }

  /** And then the batched session does exactly what the three sessions do with the same profile name. */
  lemma BatchMeansSeparate(
    refuses: Firmware, configs: Configs, path: OnuPath, tcont: nat, profile: string, gem: nat,
    sp: nat, vlan: nat, svlan: Option<nat>)
    requires ContextCommandsAreStable(refuses, path) && profile != ""
    ensures RunSession(refuses, configs, InInterface(path, BatchBody(tcont, profile, gem, sp, vlan, svlan)))
         == Separately(refuses, configs, path, tcont, profile, gem, Some(profile), sp, vlan, svlan)
  {
    var a, b, c := TcontBody(tcont, profile), GemportBody(gem, tcont, Some(profile)), ServicePortBody(sp, vlan, svlan);
    BatchIsTheThreeIff(tcont, profile, gem, sp, vlan, svlan);
    assert AllSettings(a + b);
    SplitSession(refuses, configs, path, a + b, c);
    SplitSession(refuses, configs, path, a, b);
  }

  /** A session that succeeds has had the effect of its whole body on its ONU and none on any other. */
  lemma SuccessfulSession(refuses: Firmware, configs: Configs, path: OnuPath, body: seq<Cmd>)
    requires AllSettings(body) && ContextCommandsAreStable(refuses, path)
    requires RunSession(refuses, configs, InInterface(path, body)).1
    ensures
      var configs' := RunSession(refuses, configs, InInterface(path, body)).0;
      ConfigOf(configs', path) == Effects(ConfigOf(configs, path), body) && Unchanged(configs, configs', path)
  {
    InterfaceSession(refuses, configs, path, body);
    var k := SettingsSent(refuses, Session(configs, OnuInterface(path), true), body, path);
    assert body[..|body|] == body;
  }

  lemma BatchEffect(o: OnuConfig, tcont: nat, profile: string, gem: nat, gemName: Option<string>,
                    sp: nat, vlan: nat, svlan: Option<nat>)
    ensures
      var body := TcontBody(tcont, profile) + [Gemport(gem, gemName, tcont)] + ServicePortBody(sp, vlan, svlan);
      Effects(o, body) == o.(
        tconts := o.tconts[tcont := (profile, profile)], gaps := o.gaps + {tcont},
        gemports := o.gemports[gem := Gem(gemName, tcont)], hybrid := true,
        servicePorts := o.servicePorts[sp :=
          Sp(vlan, if svlan.Some? && svlan.value != 0 && svlan.value != vlan then svlan else None)])
  {
    var a, b, c := TcontBody(tcont, profile), [Gemport(gem, gemName, tcont)], ServicePortBody(sp, vlan, svlan);
    EffectsConcat(o, a + b, c);
    EffectsConcat(o, a, b);
    TwoEffects(o, a[0], a[1]);
    var o1 := Effects(o, a);
    assert b[1..] == [];
    assert Effects(o1, b) == Effects(Effect(o1, b[0]), []);
    TwoEffects(Effects(o1, b), c[0], c[1]);
  }

  lemma TwoEffects(o: OnuConfig, c: Cmd, d: Cmd)
    ensures Effects(o, [c, d]) == Effect(Effect(o, c), d)
  {
    assert [c, d][1..] == [d] && [d][1..] == [];
    assert Effects(Effect(o, c), [d]) == Effects(Effect(Effect(o, c), d), []);
  }

  /** The fallback of the BSS flow passes no profile name for the GEM port, and differs from the batch in
      exactly that name. */
  lemma FallbackDropsGemName(
    refuses: Firmware, configs: Configs, path: OnuPath, tcont: nat, profile: string, gem: nat,
    sp: nat, vlan: nat, svlan: Option<nat>)
    requires ContextCommandsAreStable(refuses, path)
    requires RunSession(refuses, configs, InInterface(path, BatchBody(tcont, profile, gem, sp, vlan, svlan))).1
    requires Separately(refuses, configs, path, tcont, profile, gem, None, sp, vlan, svlan).1
    ensures
      var batch := ConfigOf(
        RunSession(refuses, configs, InInterface(path, BatchBody(tcont, profile, gem, sp, vlan, svlan))).0, path);
      var fallback := ConfigOf(Separately(refuses, configs, path, tcont, profile, gem, None, sp, vlan, svlan).0, path);
      && gem in batch.gemports && batch.gemports[gem] == Gem(Some(profile), tcont)
      && fallback == batch.(gemports := batch.gemports[gem := Gem(None, tcont)])
  {
    SuccessfulSession(refuses, configs, path, BatchBody(tcont, profile, gem, sp, vlan, svlan));
    SeparatelySucceeds(refuses, configs, path, tcont, profile, gem, None, sp, vlan, svlan);
    var o := ConfigOf(configs, path);
    BatchEffect(o, tcont, profile, gem, Some(profile), sp, vlan, svlan);
    BatchEffect(o, tcont, profile, gem, None, sp, vlan, svlan);
    assert o.gemports[gem := Gem(Some(profile), tcont)][gem := Gem(None, tcont)] == o.gemports[gem := Gem(None, tcont)];
  }

  lemma SeparatelySucceeds(
    refuses: Firmware, configs: Configs, path: OnuPath, tcont: nat, profile: string, gem: nat,
    gemProfile: Option<string>, sp: nat, vlan: nat, svlan: Option<nat>)
    requires ContextCommandsAreStable(refuses, path)
    requires Separately(refuses, configs, path, tcont, profile, gem, gemProfile, sp, vlan, svlan).1
    ensures
      var body := TcontBody(tcont, profile) + GemportBody(gem, tcont, gemProfile) + ServicePortBody(sp, vlan, svlan);
      ConfigOf(Separately(refuses, configs, path, tcont, profile, gem, gemProfile, sp, vlan, svlan).0, path)
      == Effects(ConfigOf(configs, path), body)
  {
    var a, b, c := TcontBody(tcont, profile), GemportBody(gem, tcont, gemProfile), ServicePortBody(sp, vlan, svlan);
    assert AllSettings(a + b) && AllSettings(a + b + c);
    SplitSession(refuses, configs, path, a, b);
    SplitSession(refuses, configs, path, a + b, c);
    SuccessfulSession(refuses, configs, path, a + b + c);
  }

  // -------------------------------------------------------------- OMCI sessions

  /** A session in one of the ONU's contexts has the effect of some prefix of its body; all of it when it succeeds. */
  lemma OpenedSession(refuses: Firmware, configs: Configs, path: OnuPath, open: Cmd, body: seq<Cmd>) returns (k: nat)
    requires AllSettings(body) && (open == Interface(path) || open == PonOnuMng(path))
    ensures
      var (configs', ok) := RunSession(refuses, configs, [open] + body + [Exit]);
      && k <= |body| && (ok ==> k == |body|)
      && ConfigOf(configs', path) == Effects(ConfigOf(configs, path), body[..k])
      && Unchanged(configs, configs', path)
  {
    var s0 := Session(configs, Top, true);
    var s1 := Send(refuses, s0, open);
    SendAllConcat(refuses, s0, [open] + body, [Exit]);
    SendAllConcat(refuses, s0, [open], body);
    SendAllOne(refuses, s0, open);
    SendAllOne(refuses, SendAll(refuses, s1, body), Exit);
    if s1.ok {
      k := SettingsSent(refuses, s1, body, path);
    } else {
      Stopped(refuses, s1, body);
      k := 0;
      assert body[..0] == [];
    }
  }

  lemma MngSession(refuses: Firmware, configs: Configs, path: OnuPath, body: seq<Cmd>) returns (k: nat)
    requires AllSettings(body)
    ensures
      var (configs', ok) := RunSession(refuses, configs, InMng(path, body));
      && k <= |body| && (ok ==> k == |body|)
      && ConfigOf(configs', path) == Effects(ConfigOf(configs, path), body[..k])
      && Unchanged(configs, configs', path)
  {
    k := OpenedSession(refuses, configs, path, PonOnuMng(path), body);
  }

  /** A successful session in the ONU's interface has the effect of its whole body on it, and no session touches
      another ONU. */
  lemma InterfaceEffect(refuses: Firmware, configs: Configs, path: OnuPath, body: seq<Cmd>)
    requires AllSettings(body)
    ensures
      var (configs', ok) := RunSession(refuses, configs, InInterface(path, body));
      && (ok ==> ConfigOf(configs', path) == Effects(ConfigOf(configs, path), body))
      && Unchanged(configs, configs', path)
  {
    var k := OpenedSession(refuses, configs, path, Interface(path), body);
    assert body[..|body|] == body;
  }

  lemma {:induction false} PurgeIsSettings(stale: seq<nat>)
    ensures AllSettings(PurgeBody(stale)) && |PurgeBody(stale)| == 2 * |stale|
    decreases |stale|
  {
    if stale != [] { PurgeIsSettings(stale[..|stale| - 1]); }
  }

  /** The purge removes exactly the priority-0 entries of the stale VLANs, from both tables. */
  lemma {:induction false} PurgeEffect(o: OnuConfig, stale: seq<nat>, f: (nat, nat))
    ensures
      var o' := Effects(o, PurgeBody(stale));
      && (f in o'.flows <==> f in o.flows && !(f.0 == 0 && f.1 in stale))
      && (f in o'.filters <==> f in o.filters && !(f.0 == 0 && f.1 in stale))
    decreases |stale|
  {
    if stale != [] {
      var n := |stale| - 1;
      var w := stale[n];
      PurgeEffect(o, stale[..n], f);
      EffectsConcat(o, PurgeBody(stale[..n]), [NoFlow(w), NoVlanFilter(w)]);
      TwoEffects(Effects(o, PurgeBody(stale[..n])), NoFlow(w), NoVlanFilter(w));
      assert stale == stale[..n] + [w];
    }
  }

  lemma {:induction false} StaleMembers(listing: seq<nat>, target: nat, w: nat)
    ensures w in StaleVlans(listing, target) <==> w != target && w in listing
    decreases |listing|
  {
    if listing != [] {
      StaleMembers(listing[1..], target, w);
      assert listing == [listing[0]] + listing[1..];
    }
  }

  predicate TouchesVlans(c: Cmd) {
    c.Flow? || c.NoFlow? || c.VlanFilter? || c.NoVlanFilter?
  }

  /** Commands that touch neither VLAN table. */
  lemma {:induction false} OtherSettings(o: OnuConfig, cs: seq<Cmd>)
    requires forall k :: 0 <= k < |cs| ==> !TouchesVlans(cs[k])
    ensures Effects(o, cs).flows == o.flows && Effects(o, cs).filters == o.filters
    decreases |cs|
  {
    if cs != [] { OtherSettings(Effect(o, cs[0]), cs[1..]); }
  }

  /** The push has exactly one Flow and, later, exactly one VlanFilter among commands that touch neither table. */
  lemma PushShape(c320: bool, vlan: nat, acs: Acs, user: Option<string>, password: Option<string>)
    returns (i: nat, j: nat)
    ensures
      var body := PushBody(c320, vlan, acs, user, password);
      && i < j < |body| && body[i] == Flow(vlan) && body[j] == VlanFilter(vlan)
      && (forall k :: 0 <= k < |body| && k != i && k != j ==> !TouchesVlans(body[k]))
      && AllSettings(body)
      && i == |PushHead(c320, vlan)| - 3 && j == |PushHead(c320, vlan)| + |PppoePart(user, password)| + 1
  {
    var h, m := PushHead(c320, vlan), PppoePart(user, password);
    HeadShape(c320, vlan);
    TailShape(c320, vlan, acs);
    i := |h| - 3;
    j := |h| + |m| + 1;
  }

  predicate Plain(c: Cmd) { !TouchesVlans(c) && !SwitchesContext(c) }

  lemma HeadShape(c320: bool, vlan: nat)
    ensures
      var h := PushHead(c320, vlan);
      |h| >= 4 && h[|h| - 3] == Flow(vlan) && forall k :: 0 <= k < |h| && k != |h| - 3 ==> Plain(h[k])
  {
  }

  lemma TailShape(c320: bool, vlan: nat, acs: Acs)
    ensures
      var t := PushTail(c320, vlan, acs);
      |t| == 9 && t[1] == VlanFilter(vlan) && forall k :: 0 <= k < |t| && k != 1 ==> Plain(t[k])
  {
  }

  lemma EffectsSnoc(o: OnuConfig, cs: seq<Cmd>, k: nat)
    requires k < |cs|
    ensures Effects(o, cs[..k + 1]) == Effect(Effects(o, cs[..k]), cs[k])
  {
    assert cs[..k + 1] == cs[..k] + [cs[k]];
    EffectsConcat(o, cs[..k], [cs[k]]);
    assert [cs[k]][1..] == [];
    var o1 := Effects(o, cs[..k]);
    assert Effects(o1, [cs[k]]) == Effects(Effect(o1, cs[k]), []);
  }

  /** VLAN tables after the first `n` commands of a push. */
  lemma {:induction false} PushEffect(o: OnuConfig, body: seq<Cmd>, vlan: nat, i: nat, j: nat, n: nat)
    requires i < j < |body| && body[i] == Flow(vlan) && body[j] == VlanFilter(vlan) && n <= |body|
    requires forall k :: 0 <= k < |body| && k != i && k != j ==> !TouchesVlans(body[k])
    ensures Effects(o, body[..n]).flows == o.flows + (if i < n then {(0, vlan)} else {})
    ensures Effects(o, body[..n]).filters == o.filters + (if j < n then {(0, vlan)} else {})
    decreases n
  {
    if n > 0 {
      PushEffect(o, body, vlan, i, j, n - 1);
      EffectsSnoc(o, body, n - 1);
    } else {
      assert body[..0] == [];
    }
  }

  lemma FourEffects(o: OnuConfig, a: Cmd, b: Cmd, c: Cmd, d: Cmd)
    ensures Effects(o, [a, b, c, d]) == Effect(Effect(Effect(Effect(o, a), b), c), d)
  {
    assert [a, b, c, d] == [a, b] + [c, d];
    EffectsConcat(o, [a, b], [c, d]);
    TwoEffects(o, a, b);
    TwoEffects(Effects(o, [a, b]), c, d);
  }

  lemma OneEffect(o: OnuConfig, c: Cmd)
    ensures Effects(o, [c]) == Effect(o, c)
  {
    assert [c][1..] == [];
    assert Effects(Effect(o, c), []) == Effect(o, c);
  }

  lemma HeadProfile(o: OnuConfig, c320: bool, vlan: nat)
    ensures Effects(o, PushHead(c320, vlan)) == o.(
      flows := o.flows + {(0, vlan)},
      settings := o.settings + (if c320 then {VoipSip, RxThreshold} else {}) + {FlowMode, GemportFlow, SwitchportBind})
  {
    var front := if c320 then [Setting(VoipSip), Setting(RxThreshold)] else [];
    var back := [Setting(FlowMode), Flow(vlan), Setting(GemportFlow), Setting(SwitchportBind)];
    EffectsConcat(o, front, back);
    TwoEffects(o, Setting(VoipSip), Setting(RxThreshold));
    FourEffects(Effects(o, front), back[0], back[1], back[2], back[3]);
  }

  lemma TailFront(o: OnuConfig, a: Knob, vlan: nat, b: Knob, c: Knob)
    ensures Effects(o, [Setting(a), VlanFilter(vlan), Setting(b), Setting(c)])
         == o.(filters := o.filters + {(0, vlan)}, settings := o.settings + {a, b, c})
  {
    AddThree(o.settings, a, b, c);
    FourEffects(o, Setting(a), VlanFilter(vlan), Setting(b), Setting(c));
  }

  lemma AddThree(s: set<Knob>, a: Knob, b: Knob, c: Knob)
    ensures s + {a} + {b} + {c} == s + {a, b, c}
  {
  }

  lemma TailBack(o: OnuConfig, second: Knob, acs: Acs)
    ensures
      Effects(o, [Tr069Acs(acs.url, acs.user, acs.password), Setting(Security1), Setting(second), Setting(Security3)])
      == o.(acs := Some((acs.url, acs.user, acs.password)), settings := o.settings + {second, Security1, Security3})
  {
    AddThree(o.settings, Security1, second, Security3);
    FourEffects(o, Tr069Acs(acs.url, acs.user, acs.password), Setting(Security1), Setting(second), Setting(Security3));
  }

  lemma TailParts(c320: bool, vlan: nat, acs: Acs)
    ensures PushTail(c320, vlan, acs)
         == [Setting(FilterMode), VlanFilter(vlan), Setting(Firewall), Setting(Tr069Unlock)]
          + ([Tr069Acs(acs.url, acs.user, acs.password), Setting(Security1),
              Setting(if c320 then Security2C320 else Security2), Setting(Security3)] + [Setting(Security4)])
  {
  }

  lemma TailProfile(o: OnuConfig, c320: bool, vlan: nat, acs: Acs)
    ensures Effects(o, PushTail(c320, vlan, acs)) == o.(
      filters := o.filters + {(0, vlan)}, acs := Some((acs.url, acs.user, acs.password)),
      settings := o.settings + (if c320 then {Security2C320} else {Security2})
        + {FilterMode, Firewall, Tr069Unlock, Security1, Security3, Security4})
  {
    var second := if c320 then Security2C320 else Security2;
    var a := [Setting(FilterMode), VlanFilter(vlan), Setting(Firewall), Setting(Tr069Unlock)];
    var b := [Tr069Acs(acs.url, acs.user, acs.password), Setting(Security1), Setting(second), Setting(Security3)];
    TailParts(c320, vlan, acs);
    TailFront(o, FilterMode, vlan, Firewall, Tr069Unlock);
    var o1 := Effects(o, a);
    TailBack(o1, second, acs);
    EffectsConcat(o, a, b + [Setting(Security4)]);
    EffectsConcat(o1, b, [Setting(Security4)]);
    OneEffect(Effects(o1, b), Setting(Security4));
  }

  /** What a complete push configures: both VLAN tables, the credentials when there are two, the management server,
      and the settings of the model. */
  lemma PushProfile(o: OnuConfig, c320: bool, vlan: nat, acs: Acs, user: Option<string>, password: Option<string>)
    ensures Effects(o, PushBody(c320, vlan, acs, user, password)) == o.(
      flows := o.flows + {(0, vlan)}, filters := o.filters + {(0, vlan)},
      pppoe := if user.Some? && user.value != "" && password.Some? && password.value != ""
               then Some((user.value, password.value)) else o.pppoe,
      acs := Some((acs.url, acs.user, acs.password)),
      settings := o.settings + ProfileSettings(c320))
  {
    var h, m, t := PushHead(c320, vlan), PppoePart(user, password), PushTail(c320, vlan, acs);
    EffectsConcat(o, h + m, t);
    EffectsConcat(o, h, m);
    HeadProfile(o, c320, vlan);
    MiddleProfile(Effects(o, h), user, password);
    TailProfile(Effects(o, h + m), c320, vlan, acs);
    SettingsAddUp(o.settings, c320);
  }

  lemma MiddleProfile(o: OnuConfig, user: Option<string>, password: Option<string>)
    ensures Effects(o, PppoePart(user, password)) == o.(
      pppoe := if user.Some? && user.value != "" && password.Some? && password.value != ""
               then Some((user.value, password.value)) else o.pppoe)
  {
    var m := PppoePart(user, password);
    if m != [] { OneEffect(o, m[0]); }
  }

  lemma SettingsAddUp(s: set<Knob>, c320: bool)
    ensures s + (if c320 then {VoipSip, RxThreshold} else {}) + {FlowMode, GemportFlow, SwitchportBind}
            + (if c320 then {Security2C320} else {Security2})
            + {FilterMode, Firewall, Tr069Unlock, Security1, Security3, Security4}
         == s + ProfileSettings(c320)
  {
  }

  /** The fixed settings of the OMCI profile: two of them only a C320 takes, and it has its own second security rule. */
  function ProfileSettings(c320: bool): set<Knob> {
    {FlowMode, GemportFlow, SwitchportBind, FilterMode, Firewall, Tr069Unlock, Security1, Security3, Security4}
    + if c320 then {VoipSip, RxThreshold, Security2C320} else {Security2}
  }

  /** A purge, cut or not, changes nothing but the VLAN tables, and adds to neither. */
  lemma {:induction false} PurgeTouchesVlans(o: OnuConfig, stale: seq<nat>, k: nat)
    requires k <= |PurgeBody(stale)|
    ensures
      var o' := Effects(o, PurgeBody(stale)[..k]);
      o' == o.(flows := o'.flows, filters := o'.filters) && o'.flows <= o.flows && o'.filters <= o.filters
    decreases k
  {
    if k == 0 {
      assert PurgeBody(stale)[..0] == [];
    } else {
      PurgeTouchesVlans(o, stale, k - 1);
      EffectsSnoc(o, PurgeBody(stale), k - 1);
      PurgeRemoves(stale, k - 1);
    }
  }

  lemma {:induction false} PurgeRemoves(stale: seq<nat>, k: nat)
    requires k < |PurgeBody(stale)|
    ensures PurgeBody(stale)[k].NoFlow? || PurgeBody(stale)[k].NoVlanFilter?
    decreases |stale|
  {
    var n := |stale| - 1;
    if k < |PurgeBody(stale[..n])| { PurgeRemoves(stale[..n], k); }
  }

  /** The listing names exactly the VLANs of the ONU's flows. */
  ghost predicate Lists(listing: seq<nat>, o: OnuConfig) {
    forall w: nat :: w in listing <==> VlanListed(o, w)
  }

  predicate VlanListed(o: OnuConfig, w: nat) {
    exists f :: f in o.flows && f.1 == w
  }

  /** Both tables after a run whose read, purge and push all succeed. */
  ghost predicate OmciResult(o: OnuConfig, o': OnuConfig, vlan: nat) {
    && (forall f :: f in o'.flows <==> f == (0, vlan) || (f in o.flows && f.0 != 0))
    && (forall g :: g in o'.filters <==>
          g == (0, vlan) || (g in o.filters && (g.0 != 0 || !VlanListed(o, g.1))))
  }

  lemma CompleteOmci(o: OnuConfig, listing: seq<nat>, vlan: nat, c320: bool, acs: Acs,
                     user: Option<string>, password: Option<string>)
    requires Lists(listing, o)
    ensures
      var purged := Effects(o, PurgeBody(StaleVlans(listing, vlan)));
      OmciResult(o, Effects(purged, PushBody(c320, vlan, acs, user, password)), vlan)
  {
    var stale := StaleVlans(listing, vlan);
    var purged := Effects(o, PurgeBody(stale));
    var body := PushBody(c320, vlan, acs, user, password);
    var i, j := PushShape(c320, vlan, acs, user, password);
    PushEffect(purged, body, vlan, i, j, |body|);
    assert body[..|body|] == body;
    forall f: (nat, nat) ensures f.1 in stale <==> f.1 != vlan && VlanListed(o, f.1) {
      StaleMembers(listing, vlan, f.1);
    }
    forall f ensures
      && (f in purged.flows <==> f in o.flows && !(f.0 == 0 && f.1 in stale))
      && (f in purged.filters <==> f in o.filters && !(f.0 == 0 && f.1 in stale)) {
      PurgeEffect(o, stale, f);
    }
  }

  /** The driver's own sessions: a run that reports success on a truthful listing has that result, and touches
      no other ONU. */
  lemma OmciRun(refuses: Firmware, configs: Configs, path: OnuPath, listing: seq<nat>, vlan: nat,
                c320: bool, acs: Acs, user: Option<string>, password: Option<string>)
    requires Lists(listing, ConfigOf(configs, path))
    ensures
      var stale := StaleVlans(listing, vlan);
      var (mid, purged) := if stale == [] then (configs, true) else RunSession(refuses, configs, InMng(path, PurgeBody(stale)));
      var (configs', ok) := RunSession(refuses, mid, InMng(path, PushBody(c320, vlan, acs, user, password)));
      && Unchanged(configs, configs', path)
      && (purged && ok ==> OmciResult(ConfigOf(configs, path), ConfigOf(configs', path), vlan))
  {
    var stale := StaleVlans(listing, vlan);
    var (mid, purged) := if stale == [] then (configs, true) else RunSession(refuses, configs, InMng(path, PurgeBody(stale)));
    var body := PushBody(c320, vlan, acs, user, password);
    PurgeIsSettings(stale);
    if stale != [] {
      var k := MngSession(refuses, configs, path, PurgeBody(stale));
      assert PurgeBody(stale)[..|PurgeBody(stale)|] == PurgeBody(stale);
    }
    var i, j := PushShape(c320, vlan, acs, user, password);
    var n := MngSession(refuses, mid, path, body);
    assert body[..|body|] == body;
    CompleteOmci(ConfigOf(configs, path), listing, vlan, c320, acs, user, password);
  }

  /** Both sessions, on any listing: other ONUs stay, and a push that succeeds leaves its whole profile. */
  lemma OmciSessions(refuses: Firmware, configs: Configs, path: OnuPath, listing: seq<nat>, vlan: nat,
                     c320: bool, acs: Acs, user: Option<string>, password: Option<string>)
    ensures
      var stale := StaleVlans(listing, vlan);
      var mid := if stale == [] then configs else RunSession(refuses, configs, InMng(path, PurgeBody(stale))).0;
      var (configs', ok) := RunSession(refuses, mid, InMng(path, PushBody(c320, vlan, acs, user, password)));
      var o, m := ConfigOf(configs, path), ConfigOf(mid, path);
      && Unchanged(configs, configs', path)
      && m == o.(flows := m.flows, filters := m.filters) && m.flows <= o.flows && m.filters <= o.filters
      && (ok ==> ConfigOf(configs', path) == Effects(m, PushBody(c320, vlan, acs, user, password)))
  {
    var stale := StaleVlans(listing, vlan);
    var mid := if stale == [] then configs else RunSession(refuses, configs, InMng(path, PurgeBody(stale))).0;
    var body := PushBody(c320, vlan, acs, user, password);
    PurgeIsSettings(stale);
    if stale != [] {
      var k := MngSession(refuses, configs, path, PurgeBody(stale));
      PurgeTouchesVlans(ConfigOf(configs, path), stale, k);
    }
    var i, j := PushShape(c320, vlan, acs, user, password);
    var n := MngSession(refuses, mid, path, body);
    assert body[..|body|] == body;
  }

  // ----------------------------------------------------------------- convergence

  /** What the driver's own runs leave: priority 0 only, and no filter VLAN that flow 1 does not have. */
  ghost predicate Tame(o: OnuConfig) {
    (forall f :: f in o.flows ==> f.0 == 0) && o.filters <= o.flows
  }

  /** A complete run leaves just the target VLAN in both tables if and only if every flow had priority 0 and every
      other filter entry had priority 0 and a VLAN that flow 1 had too. */
  lemma ConvergesIff(o: OnuConfig, o': OnuConfig, vlan: nat)
    requires OmciResult(o, o', vlan)
    ensures o'.flows == {(0, vlan)} && o'.filters == {(0, vlan)} <==>
      && (forall f :: f in o.flows ==> f.0 == 0)
      && (forall g :: g in o.filters && g != (0, vlan) ==> g.0 == 0 && VlanListed(o, g.1))
  {
    var only := {(0, vlan)};
    if (forall f :: f in o.flows ==> f.0 == 0)
      && (forall g :: g in o.filters && g != (0, vlan) ==> g.0 == 0 && VlanListed(o, g.1)) {
      assert o'.flows == only && o'.filters == only;
    }
    if o'.flows == only && o'.filters == only {
      forall f | f in o.flows ensures f.0 == 0 {
        if f.0 != 0 { assert f in o'.flows; }
      }
      forall g | g in o.filters && g != (0, vlan) ensures g.0 == 0 && VlanListed(o, g.1) {
        assert g !in o'.filters;
      }
    }
  }

  /** From a tame configuration it converges; the result is tame again, and the next run with the same VLAN has
      nothing to purge. */
  lemma TameConverges(o: OnuConfig, o': OnuConfig, vlan: nat, listing: seq<nat>)
    requires Tame(o) && OmciResult(o, o', vlan) && Lists(listing, o')
    ensures o'.flows == {(0, vlan)} && o'.filters == {(0, vlan)}
    ensures Tame(o') && StaleVlans(listing, vlan) == []
  {
    forall g | g in o.filters && g != (0, vlan) ensures g.0 == 0 && VlanListed(o, g.1) {
      assert g in o.flows;
    }
    ConvergesIff(o, o', vlan);
    forall k | 0 <= k < |listing| ensures listing[k] == vlan {
      assert listing[k] in listing;
      assert VlanListed(o', listing[k]);
    }
    NothingStale(listing, vlan);
  }

  lemma {:induction false} NothingStale(listing: seq<nat>, target: nat)
    requires forall k :: 0 <= k < |listing| ==> listing[k] == target
    ensures StaleVlans(listing, target) == []
    decreases |listing|
  {
    if listing != [] {
      NothingStale(listing[1..], target);
    }
  }

  lemma VlansAreListed(o: OnuConfig, flows: seq<(nat, nat)>, w: nat)
    requires forall f :: f in flows <==> f in o.flows
    ensures w in VlansOf(flows) <==> VlanListed(o, w)
  {
    var vlans := VlansOf(flows);
    if w in vlans {
      var k :| 0 <= k < |vlans| && vlans[k] == w;
      assert flows[k] in o.flows && flows[k].1 == w;
    }
    if VlanListed(o, w) {
      var f :| f in o.flows && f.1 == w;
      var k :| 0 <= k < |flows| && flows[k] == f;
      assert vlans[k] == w;
    }
  }

  /** A text that shows each of the ONU's flows on a line of its own lists them truthfully. */
  lemma ShownIsListed(o: OnuConfig, ls: seq<ConfigLine>, raw: string)
    requires ls != [] && raw == Unlines(PrintedLines(ls)) && forall k :: 0 <= k < |ls| ==> Printable(ls[k])
    requires forall f :: f in FlowsOf(ls) <==> f in o.flows
    ensures Lists(ListedIn(Some(raw)), o)
  {
    var listing := ListedIn(Some(raw));
    assert listing == VlansOf(FlowsOf(ls)) by { FlowsAreRead(ls, raw); }
    forall w: nat ensures w in listing <==> VlanListed(o, w) { VlansAreListed(o, FlowsOf(ls), w); }
  }

  // ----------------------------------------------------- histories with failures

  predicate NoRepeats(xs: seq<nat>) {
    forall i, j :: 0 <= i < j < |xs| ==> xs[i] != xs[j]
  }

  lemma {:induction false} PurgePrefix(stale: seq<nat>, i: nat)
    requires i <= |stale|
    ensures |PurgeBody(stale)| == 2 * |stale|
    ensures PurgeBody(stale)[..2 * i] == PurgeBody(stale[..i])
    ensures i < |stale| ==> PurgeBody(stale)[2 * i] == NoFlow(stale[i])
    decreases |stale|
  {
    if stale != [] {
      var n := |stale| - 1;
      var front := PurgeBody(stale[..n]);
      PurgePrefix(stale[..n], if i <= n then i else n);
      if i <= n {
        assert stale[..n][..i] == stale[..i];
        assert PurgeBody(stale)[..2 * i] == front[..2 * i];
      } else {
        assert stale[..i] == stale;
        assert PurgeBody(stale)[..2 * i] == PurgeBody(stale);
      }
    }
  }

  /** A purge cut after `m` commands. Cut inside a pair, it has removed a flow but not its filter. */
  lemma PurgeCut(o: OnuConfig, stale: seq<nat>, m: nat, f: (nat, nat))
    requires m <= 2 * |stale|
    ensures |PurgeBody(stale)| == 2 * |stale|
    ensures
      var o', i := Effects(o, PurgeBody(stale)[..m]), m / 2;
      && (f in o'.flows <==> f in o.flows && !(f.0 == 0 && f.1 in stale[..i + m % 2]))
      && (f in o'.filters <==> f in o.filters && !(f.0 == 0 && f.1 in stale[..i]))
  {
    var i := m / 2;
    PurgePrefix(stale, i);
    PurgeEffect(o, stale[..i], f);
    if m % 2 == 1 {
      EffectsSnoc(o, PurgeBody(stale), 2 * i);
      assert m == 2 * i + 1;
      assert stale[..i + 1] == stale[..i] + [stale[i]];
    } else {
      assert m == 2 * i;
    }
  }

  /** A run of `configure_omci` as it may really go: the read may raise, and each session may stop early. */
  datatype Call = Call(vlan: nat, listing: Option<seq<nat>>, purgeCut: nat, pushCut: nat,
                       c320: bool, acs: Acs, user: Option<string>, password: Option<string>)
  {
    function Stale(): seq<nat> {
      if listing.Some? then StaleVlans(listing.value, vlan) else []
    }

    function Push(): seq<Cmd> { PushBody(c320, vlan, acs, user, password) }

    ghost predicate Possible(o: OnuConfig) {
      && (listing.Some? ==> Lists(listing.value, o) && NoRepeats(Stale()))
      && purgeCut <= |PurgeBody(Stale())| && pushCut <= |Push()|
    }

    function Outcome(o: OnuConfig): OnuConfig
      requires purgeCut <= |PurgeBody(Stale())| && pushCut <= |Push()|
    {
      Effects(Effects(o, PurgeBody(Stale())[..purgeCut]), Push()[..pushCut])
    }

    /** The purge stopped between the two commands of a VLAN that has a filter entry. */
    predicate CutInsidePair(o: OnuConfig)
      requires purgeCut <= |PurgeBody(Stale())|
    {
      purgeCut % 2 == 1 && purgeCut / 2 < |Stale()| && (0, Stale()[purgeCut / 2]) in o.filters
    }

    /** The push got as far as its flow, and as its filter. */
    predicate SendsFlow() { |PushHead(c320, vlan)| - 3 < pushCut }

    predicate SendsFilter() { |PushHead(c320, vlan)| + |PppoePart(user, password)| + 1 < pushCut }

    /** Listed truthfully, and neither session was cut. */
    predicate Complete() {
      listing.Some? && purgeCut == |PurgeBody(Stale())| && pushCut == |Push()|
    }
  }

  /** Both tables after any run, however it is cut short. */
  lemma OutcomeTables(o: OnuConfig, call: Call, f: (nat, nat))
    requires call.purgeCut <= |PurgeBody(call.Stale())| && call.pushCut <= |call.Push()|
    ensures |PurgeBody(call.Stale())| == 2 * |call.Stale()| && (call.SendsFilter() ==> call.SendsFlow())
    ensures
      var stale, m, o' := call.Stale(), call.purgeCut, call.Outcome(o);
      && (f in o'.flows <==>
            (f in o.flows && !(f.0 == 0 && f.1 in stale[..m / 2 + m % 2])) || (f == (0, call.vlan) && call.SendsFlow()))
      && (f in o'.filters <==>
            (f in o.filters && !(f.0 == 0 && f.1 in stale[..m / 2])) || (f == (0, call.vlan) && call.SendsFilter()))
  {
    var stale, m := call.Stale(), call.purgeCut;
    PurgePrefix(stale, 0);
    PurgeCut(o, stale, m, f);
    var mid := Effects(o, PurgeBody(stale)[..m]);
    var i, j := PushShape(call.c320, call.vlan, call.acs, call.user, call.password);
    PushEffect(mid, call.Push(), call.vlan, i, j, call.pushCut);
  }

  /** A filter entry of priority 0 whose VLAN flow 1 does not have: no purge finds it. */
  ghost predicate Orphan(o: OnuConfig, w: nat) {
    (0, w) in o.filters && !VlanListed(o, w)
  }

  /** From a tame configuration any run, however it is cut short, leaves a tame one if and only if the purge was
      not cut inside such a pair. */
  lemma StaysTameIff(o: OnuConfig, call: Call)
    requires Tame(o) && call.Possible(o)
    ensures Tame(call.Outcome(o)) <==> !call.CutInsidePair(o)
  {
    if call.CutInsidePair(o) {
      var w := CutMakesOrphan(o, call);
      assert (0, w) !in call.Outcome(o).flows;
    } else {
      UncutStaysTame(o, call);
    }
  }

  /** A purge cut inside a pair leaves an orphaned filter entry. */
  lemma CutMakesOrphan(o: OnuConfig, call: Call) returns (w: nat)
    requires Tame(o) && call.Possible(o) && call.CutInsidePair(o)
    ensures w == call.Stale()[call.purgeCut / 2] && w != call.vlan && Orphan(call.Outcome(o), w)
  {
    var stale, k := call.Stale(), call.purgeCut / 2;
    w := stale[k];
    assert w in stale[..k + 1] && w !in stale[..k];
    assert w in stale;
    StaleMembers(call.listing.value, call.vlan, w);
    OutcomeTables(o, call, (0, w));
    forall f | f in call.Outcome(o).flows ensures f.1 != w {
      OutcomeTables(o, call, f);
    }
  }

  lemma UncutStaysTame(o: OnuConfig, call: Call)
    requires Tame(o) && call.Possible(o) && !call.CutInsidePair(o)
    ensures Tame(call.Outcome(o))
  {
    var stale, k, o' := call.Stale(), call.purgeCut / 2, call.Outcome(o);
    forall f | f in o'.flows ensures f.0 == 0 { OutcomeTables(o, call, f); }
    forall g | g in o'.filters ensures g in o'.flows {
      OutcomeTables(o, call, g);
      if call.purgeCut % 2 == 1 {
        assert stale[..k + 1] == stale[..k] + [stale[k]];
      }
    }
  }

  /** Such a run: VLAN 5 is configured, the target is 6, the purge is cut after its first command, and the push that
      follows succeeds. */
  lemma CutExample()
    ensures
      var o := BLANK.(flows := {(0, 5)}, filters := {(0, 5)});
      var push := PushBody(false, 6, Acs("u", "v", "w"), None, None);
      var call := Call(6, Some([5]), 1, |push|, false, Acs("u", "v", "w"), None, None);
      && Tame(o) && call.Possible(o) && call.CutInsidePair(o)
      && !Tame(call.Outcome(o)) && Orphan(call.Outcome(o), 5)
  {
    var o := BLANK.(flows := {(0, 5)}, filters := {(0, 5)});
    var push := PushBody(false, 6, Acs("u", "v", "w"), None, None);
    var call := Call(6, Some([5]), 1, |push|, false, Acs("u", "v", "w"), None, None);
    assert [5][1..] == [];
    assert StaleVlans([5], 6) == [5] + StaleVlans([], 6) == [5];
    PurgePrefix([5], 0);
    forall w: nat ensures w in [5] <==> VlanListed(o, w) {
      assert VlanListed(o, 5) by { assert (0, 5) in o.flows; }
    }
    var w := CutMakesOrphan(o, call);
    StaysTameIff(o, call);
  }

  // ---------------------------------------------------------- orphaned entries

  /** A run leaves an orphaned entry orphaned, cut or not, if and only if it does not send a flow of that VLAN. */
  lemma OrphanStaysIff(o: OnuConfig, call: Call, w: nat)
    requires call.Possible(o) && Orphan(o, w)
    ensures (0, w) in call.Outcome(o).filters
    ensures Orphan(call.Outcome(o), w) <==> !(call.vlan == w && call.SendsFlow())
  {
    var o' := call.Outcome(o);
    OutcomeTables(o, call, (0, w));
    if call.listing.Some? { StaleMembers(call.listing.value, call.vlan, w); }
    assert w !in call.Stale();
    if call.vlan == w && call.SendsFlow() {
      assert (0, w) in o'.flows;
    } else {
      forall f | f in o'.flows ensures f.1 != w {
        OutcomeTables(o, call, f);
      }
    }
  }

  /** Runs one after another, cut or not. */
  ghost predicate AllPossible(o: OnuConfig, calls: seq<Call>)
    decreases |calls|
  {
    calls == [] || (calls[0].Possible(o) && AllPossible(calls[0].Outcome(o), calls[1..]))
  }

  ghost predicate AlwaysOrphan(o: OnuConfig, calls: seq<Call>, w: nat)
    requires AllPossible(o, calls)
    decreases |calls|
  {
    Orphan(o, w) && (calls == [] || AlwaysOrphan(calls[0].Outcome(o), calls[1..], w))
  }

  predicate NoneSends(calls: seq<Call>, w: nat) {
    forall k :: 0 <= k < |calls| ==> !(calls[k].vlan == w && calls[k].SendsFlow())
  }

  /** Over any history, complete runs included, an orphaned entry stays out of reach throughout if and only if no run
      sends a flow of its VLAN. */
  lemma {:induction false} OrphanLastsIff(o: OnuConfig, calls: seq<Call>, w: nat)
    requires Orphan(o, w) && AllPossible(o, calls)
    ensures AlwaysOrphan(o, calls, w) <==> NoneSends(calls, w)
    decreases |calls|
  {
    if calls != [] {
      var o', rest := calls[0].Outcome(o), calls[1..];
      OrphanStaysIff(o, calls[0], w);
      assert forall k :: 0 <= k < |rest| ==> rest[k] == calls[k + 1];
      if Orphan(o', w) { OrphanLastsIff(o', rest, w); }
      if NoneSends(rest, w) && !(calls[0].vlan == w && calls[0].SendsFlow()) {
        forall k | 0 <= k < |calls| ensures !(calls[k].vlan == w && calls[k].SendsFlow()) {
          if k > 0 { assert calls[k] == rest[k - 1]; }
        }
      }
    }
  }

  lemma CompleteOutcome(o: OnuConfig, call: Call)
    requires call.Possible(o) && call.Complete()
    ensures OmciResult(o, call.Outcome(o), call.vlan)
  {
    assert PurgeBody(call.Stale())[..call.purgeCut] == PurgeBody(call.Stale());
    assert call.Push()[..call.pushCut] == call.Push();
    CompleteOmci(o, call.listing.value, call.vlan, call.c320, call.acs, call.user, call.password);
  }

  /** Meanwhile no complete run converges; one with that very VLAN takes the entry up again, and where nothing else
      is out of order it leaves a tame configuration. */
  lemma OrphanAndCompleteRun(o: OnuConfig, call: Call, w: nat)
    requires call.Possible(o) && call.Complete() && Orphan(o, w)
    ensures call.vlan != w ==> (0, w) in call.Outcome(o).filters && call.Outcome(o).filters != {(0, call.vlan)}
    ensures
      call.vlan == w && (forall f :: f in o.flows ==> f.0 == 0) && (forall g :: g in o.filters ==> g == (0, w) || g in o.flows)
      ==> call.Outcome(o).flows == {(0, w)} && call.Outcome(o).filters == {(0, w)} && Tame(call.Outcome(o))
  {
    var o' := call.Outcome(o);
    CompleteOutcome(o, call);
    OrphanStaysIff(o, call, w);
    if call.vlan == w && (forall f :: f in o.flows ==> f.0 == 0)
      && (forall g :: g in o.filters ==> g == (0, w) || g in o.flows) {
      forall g | g in o.filters && g != (0, w) ensures g.0 == 0 && VlanListed(o, g.1) {
        assert g in o.flows;
      }
      ConvergesIff(o, o', w);
    }
  }

  // ------------------------------------------------------------- uncut histories

  ghost predicate History(o: OnuConfig, calls: seq<Call>)
    decreases |calls|
  {
    calls == [] ||
    (calls[0].Possible(o) && !calls[0].CutInsidePair(o) && History(calls[0].Outcome(o), calls[1..]))
  }

  ghost function After(o: OnuConfig, calls: seq<Call>): OnuConfig
    requires History(o, calls)
    decreases |calls|
  {
    if calls == [] then o else After(calls[0].Outcome(o), calls[1..])
  }

  /** After any such history, failures included, one complete run reaches the target VLAN in both tables. */
  lemma {:induction false} ConvergesAfterHistory(o: OnuConfig, calls: seq<Call>, last: Call)
    requires Tame(o) && History(o, calls) && last.Possible(After(o, calls)) && last.Complete()
    ensures
      var o' := last.Outcome(After(o, calls));
      o'.flows == {(0, last.vlan)} && o'.filters == {(0, last.vlan)}
    decreases |calls|
  {
    if calls == [] {
      CompleteOutcome(o, last);
      forall g | g in o.filters && g != (0, last.vlan) ensures g.0 == 0 && VlanListed(o, g.1) {
        assert g in o.flows;
      }
      ConvergesIff(o, last.Outcome(o), last.vlan);
    } else {
      StaysTameIff(o, calls[0]);
      ConvergesAfterHistory(calls[0].Outcome(o), calls[1..], last);
    }
  }
}
