/** Which word of a line each parser takes for which field, whatever the values, and which of several lines counts. */
module LineFields {
  import opened Options
  import opened Text
  import opened LinePatterns
  import opened LineWords
  import opened ConfigFields
  import opened ConfigRoundTrip
  import PortListing

  lemma FitsWhole(p: Piece, w: string)
    requires w != "" && Fits(p, w)
    ensures Whole(p, w)
  {
    if p.AnyCase? {
      assert |w| == |Lower(w)| == |Lower(p.text)|;
      assert w[..|w|] == w;
    }
  }

  predicate AllFit(p: Pattern, ws: seq<string>) {
    |p| <= |ws| && forall k :: 0 <= k < |p| ==> Fits(p[k], ws[k])
  }

  /** Words that fit a pattern piece by piece are what it captures. */
  lemma MatchFits(p: Pattern, ws: seq<string>)
    requires 0 < |p| && AllWords(ws) && AllFit(p, ws)
    ensures MatchWords(p, ws) == Some(ws[..|p|])
  {
    forall k | 0 <= k < |p| ensures Whole(p[k], ws[k]) { FitsWhole(p[k], ws[k]); }
    MatchWhole(p, ws);
  }

  // ------------------------------------------------------------ one line, any values

  /** `tcont ID name NAME profile PROFILE` */
  lemma TcontWords(line: string, ws: seq<string>)
    requires ws == Words(line) && |ws| >= 6 && ws[0] == "tcont" && ws[2] == "name" && ws[4] == "profile"
    requires IsNumeral(ws[1])
    ensures TcontIn(line) == Some((ws[1], ws[3], ws[5]))
  {
    TcontIsGood();
    AnchoredByWords([TCONT], line);
    OneAlternative(TCONT, ws);
    TcontFits(ws);
    MatchFits(TCONT, ws);
  }

  lemma TcontFits(ws: seq<string>)
    requires AllWords(ws) && |ws| >= 6 && ws[0] == "tcont" && ws[2] == "name" && ws[4] == "profile" && IsNumeral(ws[1])
    ensures AllFit(TCONT, ws)
  {
  }

  /** `gemport ID name NAME tcont TCONT` */
  lemma NamedGemportWords(line: string, ws: seq<string>)
    requires ws == Words(line) && |ws| >= 6 && ws[0] == "gemport" && ws[2] == "name" && ws[4] == "tcont"
    requires IsNumeral(ws[1]) && IsNumeral(ws[5])
    ensures GemportIn(line) == Some((ws[1], ws[3], ws[5]))
  {
    GemportRead(line);
    MatchFits(NAMED_GEMPORT, ws);
  }

  /** `gemport ID tcont TCONT`: the name is empty. */
  lemma PlainGemportWords(line: string, ws: seq<string>)
    requires ws == Words(line) && |ws| >= 4 && ws[0] == "gemport" && ws[2] == "tcont"
    requires IsNumeral(ws[1]) && IsNumeral(ws[3])
    ensures GemportIn(line) == Some((ws[1], "", ws[3]))
  {
    GemportRead(line);
    MatchFits(PLAIN_GEMPORT, ws);
    if MatchWords(NAMED_GEMPORT, ws).Some? {
      AnchoredNeeds(NAMED_GEMPORT, ws);
      assert false;
    }
  }

  /** `service-port ID vport VPORT user-vlan USER vlan VLAN` */
  lemma ServicePortWords(line: string, ws: seq<string>)
    requires ws == Words(line) && |ws| >= 8 && ws[0] == "service-port" && ws[2] == "vport"
    requires ws[4] == "user-vlan" && ws[6] == "vlan"
    requires IsNumeral(ws[1]) && IsNumeral(ws[3]) && IsNumeral(ws[5]) && IsNumeral(ws[7])
    ensures ServicePortIn(line) == Some((ws[1], ws[3], ws[5], ws[7]))
  {
    ServicePortIsGood();
    AnchoredByWords([SERVICE_PORT], line);
    OneAlternative(SERVICE_PORT, ws);
    ServicePortFits(ws);
    MatchFits(SERVICE_PORT, ws);
  }

  lemma ServicePortFits(ws: seq<string>)
    requires AllWords(ws) && |ws| >= 8 && ws[0] == "service-port" && ws[2] == "vport" && ws[4] == "user-vlan" && ws[6] == "vlan"
    requires IsNumeral(ws[1]) && IsNumeral(ws[3]) && IsNumeral(ws[5]) && IsNumeral(ws[7])
    ensures AllFit(SERVICE_PORT, ws)
  {
  }

  /** `pppoe ID nat enable user USER password PASSWORD` */
  lemma PppoeWords(line: string, ws: seq<string>)
    requires ws == Words(line) && |ws| >= 8 && ws[0] == "pppoe" && ws[2] == "nat" && ws[3] == "enable"
    requires ws[4] == "user" && ws[6] == "password" && IsNumeral(ws[1])
    ensures PppoeIn(line) == Some((ws[5], ws[7]))
  {
    PppoeIsGood();
    SearchedByWords([PPPOE], line);
    PppoeFits(ws);
    MatchFits(PPPOE, ws);
    FoundAtStart(PPPOE, ws);
  }

  lemma PppoeFits(ws: seq<string>)
    requires AllWords(ws) && |ws| >= 8 && ws[0] == "pppoe" && ws[2] == "nat" && ws[3] == "enable"
    requires ws[4] == "user" && ws[6] == "password" && IsNumeral(ws[1])
    ensures AllFit(PPPOE, ws)
  {
  }

  /** `flow ID pri PRIORITY vlan VLAN` */
  lemma FlowWords(line: string, ws: seq<string>)
    requires ws == Words(line) && |ws| >= 6 && ws[0] == "flow" && ws[2] == "pri" && ws[4] == "vlan"
    requires IsNumeral(ws[1]) && IsNumeral(ws[3]) && IsNumeral(ws[5])
    ensures FlowIn(line) == Some((ws[1], ws[5]))
  {
    FlowIsGood();
    SearchedByWords([FLOW], line);
    FlowFits(ws);
    MatchFits(FLOW, ws);
    FoundAtStart(FLOW, ws);
  }

  lemma FlowFits(ws: seq<string>)
    requires AllWords(ws) && |ws| >= 6 && ws[0] == "flow" && ws[2] == "pri" && ws[4] == "vlan"
    requires IsNumeral(ws[1]) && IsNumeral(ws[3]) && IsNumeral(ws[5])
    ensures AllFit(FLOW, ws)
  {
  }

  /** `vlan-filter iphost PORT pri PRIORITY vlan VLAN`, or `ethuni` */
  lemma FilterWords(line: string, ws: seq<string>)
    requires ws == Words(line) && |ws| >= 7 && ws[0] == "vlan-filter" && (ws[1] == "iphost" || ws[1] == "ethuni")
    requires ws[3] == "pri" && ws[5] == "vlan" && IsNumeral(ws[4]) && IsNumeral(ws[6])
    ensures FilterIn(line) == Some(ws[6])
  {
    IphostFilterIsGood();
    EthuniFilterIsGood();
    TwoAlternatives(IPHOST_FILTER, ETHUNI_FILTER, ws);
    SearchedByWords([IPHOST_FILTER, ETHUNI_FILTER], line);
    if ws[1] == "iphost" {
      IphostFits(ws);
      MatchFits(IPHOST_FILTER, ws);
    } else {
      NotIphost(ws);
      EthuniFits(ws);
      MatchFits(ETHUNI_FILTER, ws);
    }
  }

  lemma IphostFits(ws: seq<string>)
    requires AllWords(ws) && |ws| >= 7 && ws[0] == "vlan-filter" && ws[1] == "iphost"
    requires ws[3] == "pri" && ws[5] == "vlan" && IsNumeral(ws[4]) && IsNumeral(ws[6])
    ensures AllFit(IPHOST_FILTER, ws)
  {
  }

  lemma EthuniFits(ws: seq<string>)
    requires AllWords(ws) && |ws| >= 7 && ws[0] == "vlan-filter" && ws[1] == "ethuni"
    requires ws[3] == "pri" && ws[5] == "vlan" && IsNumeral(ws[4]) && IsNumeral(ws[6])
    ensures AllFit(ETHUNI_FILTER, ws)
  {
  }

  lemma NotIphost(ws: seq<string>)
    requires |ws| >= 2 && ws[1] == "ethuni"
    ensures MatchWords(IPHOST_FILTER, ws) == None
  {
    assert IPHOST_FILTER[1] == Exact("iphost");
    if MatchWords(IPHOST_FILTER, ws).Some? {
      AnchoredNeeds(IPHOST_FILTER, ws);
      assert false;
    }
  }

  lemma SearchFits(p: Pattern, line: string, ws: seq<string>)
    requires Good(p) && ws == Words(line) && AllFit(p, ws)
    ensures Search([p], line) == Some(ws[..|p|])
  {
    SearchByWords([p], line);
    MatchFits(p, ws);
    FoundAtStart(p, ws);
  }

  /** `onu ID type TYPE sn SERIAL`, keywords in any case */
  lemma RegistrationWords(line: string, ws: seq<string>)
    requires ws == Words(line) && |ws| >= 6 && IsNumeral(ws[1])
    requires Lower(ws[0]) == "onu" && Lower(ws[2]) == "type" && Lower(ws[4]) == "sn"
    ensures PortListing.IdIn(line) == Some(Value(ws[1]))
    ensures PortListing.SerialIn(line) == Some((Value(ws[1]), ws[5]))
  {
    KeywordsFit(ws);
    RegistrationFits(ws);
    PortListing.PatternsAreGood();
    SearchFits(PortListing.ONU_TYPE, line, ws);
    SearchFits(PortListing.ONU_SERIAL, line, ws);
  }

  lemma AnyCaseFits(t: string, w: string)
    requires Lower(w) == t && forall k :: 0 <= k < |t| ==> !('A' <= t[k] <= 'Z')
    ensures Fits(AnyCase(t), w)
  {
    assert Lower(t) == t;
  }

  lemma KeywordsFit(ws: seq<string>)
    requires |ws| >= 6 && Lower(ws[0]) == "onu" && Lower(ws[2]) == "type" && Lower(ws[4]) == "sn"
    ensures Fits(PortListing.ONU, ws[0]) && Fits(PortListing.TYPE, ws[2]) && Fits(PortListing.SN, ws[4])
  {
    AnyCaseFits("onu", ws[0]);
    AnyCaseFits("type", ws[2]);
    AnyCaseFits("sn", ws[4]);
  }

  lemma RegistrationFits(ws: seq<string>)
    requires AllWords(ws) && |ws| >= 6 && IsNumeral(ws[1])
    requires Fits(PortListing.ONU, ws[0]) && Fits(PortListing.TYPE, ws[2]) && Fits(PortListing.SN, ws[4])
    ensures AllFit(PortListing.ONU_TYPE, ws) && AllFit(PortListing.ONU_SERIAL, ws)
  {
  }

  // ------------------------------------------------------------------- which line counts

  /** A field is what the last line that gives one gives: line `k - 1`, or none at all. */
  lemma {:induction false} LastIsLast<A, T>(f: A -> Option<T>, xs: seq<A>) returns (k: nat)
    ensures k <= |xs| && forall j :: k <= j < |xs| ==> f(xs[j]) == None
    ensures Last(f, xs) == None <==> k == 0
    ensures k > 0 ==> f(xs[k - 1]).Some? && Last(f, xs) == f(xs[k - 1])
    decreases |xs|
  {
    if xs == [] || f(xs[|xs| - 1]).Some? {
      k := |xs|;
    } else {
      k := LastIsLast(f, xs[..|xs| - 1]);
    }
  }

  /** A list holds what each line gives, in order: these three rules determine it. */
  lemma {:induction false} EveryInOrder<A, T>(f: A -> Option<T>, xs: seq<A>, ys: seq<A>)
    ensures Every(f, []) == []
    ensures |xs| == 1 ==> Every(f, xs) == if f(xs[0]).Some? then [f(xs[0]).value] else []
    ensures Every(f, xs + ys) == Every(f, xs) + Every(f, ys)
    decreases |ys|
  {
    if |xs| == 1 { assert xs[..0] == []; }
    if ys == [] {
      assert xs + ys == xs;
    } else {
      var n := |ys| - 1;
      assert (xs + ys)[..|xs| + n] == xs + ys[..n];
      EveryInOrder(f, xs, ys[..n]);
    }
  }

  /** An ID is that of the first line that registers the serial, in any case. */
  lemma {:induction false} FirstSerialCounts(ls: seq<string>, serial: string) returns (k: nat)
    ensures k <= |ls| && forall j :: 0 <= j < k ==> !Registers(ls[j], serial)
    ensures PortListing.IdOfSerial(ls, serial) == None <==> k == |ls|
    ensures k < |ls| ==>
      Registers(ls[k], serial) && PortListing.IdOfSerial(ls, serial) == Some(PortListing.SerialIn(ls[k]).value.0)
    decreases |ls|
  {
    if ls == [] || Registers(ls[0], serial) {
      k := 0;
    } else {
      var n := FirstSerialCounts(ls[1..], serial);
      k := n + 1;
      forall j | 0 <= j < k ensures !Registers(ls[j], serial) {
        if j > 0 { assert !Registers(ls[1..][j - 1], serial); }
      }
    }
  }

  predicate Registers(line: string, serial: string) {
    var m := PortListing.SerialIn(line);
    m.Some? && Upper(m.value.1) == Upper(serial)
  }

  /** The mode: bridge as soon as one line contains `onu-vlan`, else PPPoE if some line gives credentials, else unknown. */
  lemma ModeIff(lines: seq<string>)
    ensures ModeOf(lines) == BridgeMode <==> exists k :: 0 <= k < |lines| && Contains(Strip(lines[k]), "onu-vlan")
    ensures ModeOf(lines) == PppoeMode <==>
      && (forall k :: 0 <= k < |lines| ==> !Contains(Strip(lines[k]), "onu-vlan"))
      && (exists k :: 0 <= k < |lines| && PppoeIn(lines[k]).Some?)
  {
    var last := LastIsLast(PppoeIn, lines);
    forall k | 0 <= k < |lines| ensures Bridges(lines[k]) <==> Contains(Strip(lines[k]), "onu-vlan") {}
    if AnyBridges(lines) {
      var k :| 0 <= k < |lines| && Bridges(lines[k]);
      assert Contains(Strip(lines[k]), "onu-vlan");
    }
  }

  // ------------------------------------------------------------ fields taken from the text itself

  lemma SpacesLead(gap: string, text: string)
    requires AllSpace(gap) && (text == "" || NonSpace(text[0]))
    ensures Leading(gap + text, IsSpace) == |gap|
  {
    var s := gap + text;
    assert forall k :: 0 <= k < |gap| ==> s[k] == gap[k];
    assert text != "" ==> s[|gap|] == text[0];
  }

  /** The name is the text after the word and the blanks behind it. */
  lemma NameIsRead(line: string, gap: string, name: string)
    requires Strip(line) == "name" + (gap + name) && gap != "" && AllSpace(gap)
    requires name == "" || NonSpace(name[0])
    ensures NameIn(line) == Some(name)
  {
    var s, tail := Strip(line), gap + name;
    assert s[..4] == "name" && s[4..] == tail;
    SpacesLead(gap, name);
    assert s[4 + |gap|..] == tail[|gap|..] == name;
  }

  predicate Rare(t: string, s: string) {
    forall i :: 0 < i <= |s| ==> !OccursAt(s, t, i)
  }

  lemma {:induction false} AfterLastOf(a: string, t: string, b: string)
    requires t != "" && Rare(t, t + b)
    ensures AfterLast(a + (t + b), t) == b
    decreases |a|
  {
    var s := a + (t + b);
    if a == "" {
      assert s == t + b && s[..|t|] == t && s[|t|..] == b;
      if Contains(s[1..], t) {
        var i :| 0 <= i <= |s| - 1 && OccursAt(s[1..], t, i);
        assert s[1..][i..i + |t|] == s[i + 1..i + 1 + |t|];
        assert OccursAt(t + b, t, i + 1);
        assert false;
      }
    } else {
      assert s[1..] == a[1..] + (t + b);
      var i := |a| - 1;
      assert s[1..][i..i + |t|] == t;
      assert OccursAt(s[1..], t, i);
      AfterLastOf(a[1..], t, b);
    }
  }

  lemma StartsOtherwise(s: string, t: string, i: nat)
    requires t != "" && (i < |s| ==> s[i] != t[0])
    ensures !OccursAt(s, t, i)
  {
    if i + |t| <= |s| { assert s[i..i + |t|][0] == s[i]; }
  }

  /** The gap mode is the text after the last `gap `. */
  lemma GapIsRead(line: string, before: string, mode: string)
    requires Strip(line) == before + ("gap " + mode) && "mode" <= mode && 'g' !in mode
    ensures GapIn(line) == Some(mode)
  {
    var s, t := Strip(line), "gap ";
    forall i | 0 < i <= |t + mode| ensures !OccursAt(t + mode, t, i) {
      if 4 <= i < |t + mode| { assert (t + mode)[i] == mode[i - 4]; }
      StartsOtherwise(t + mode, t, i);
    }
    AfterLastOf(before, t, mode);
    var i := |before|;
    assert mode == "mode" + mode[4..];
    assert s[i..i + 8] == "gap mode";
    assert OccursAt(s, "gap mode", i);
  }

  /** Which lines give these fields at all: those with the word and a blank, or with the phrase, blank included. */
  lemma PhraseIff(line: string)
    ensures NameIn(line).Some? <==> "name" <= Strip(line) && |Strip(line)| > 4 && IsSpace(Strip(line)[4])
    ensures GapIn(line).Some? <==> Contains(Strip(line), "gap mode")
    ensures SwitchportModeIn(line).Some? <==> Contains(Strip(line), "switchport mode")
    ensures FlowModeIn(line).Some? <==> Contains(Strip(line), "flow mode")
    ensures SwitchportModeIn(line).Some? ==> SwitchportModeIn(line).value == Strip(line)
    ensures FlowModeIn(line).Some? ==> FlowModeIn(line).value == Strip(line)
  {
    var s := Strip(line);
    if "name" <= s && |s| > 4 { assert s[4..][0] == s[4]; }
  }
}
