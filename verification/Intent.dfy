/** What callers' settings come to on the ASIC (src/ofproto-sim-provider.c), said of the settings and
    the tables alone.

    `Bundles` follows the code: settings are copied into a configuration, and that is turned into a
    command.  The predicates here do not mention how; the lemmas say that the code's way leads there. */
module Intent {
  import opened Wrappers
  import opened VlanList
  import opened PortCommand
  import opened Bundles

  // ---------------------------------------------------------------- a port as its settings ask for it

  /** The VLAN is enabled and in the trunk list, if there is one. */
  ghost predicate Carries(s: Settings, vlans: set<int>, v: int) {
    1 <= v <= 4094 && v in vlans && (s.trunks.Some? ==> v in s.trunks.value)
  }

  /** Some VLAN is left for the port: its own, unless it is a trunk, and one that it trunks, unless it
      is an access port. */
  ghost predicate CallsForPort(s: Settings, vlans: set<int>) {
    && (s.mode == Trunk || (0 < s.vlan < 4095 && s.vlan in vlans))
    && (s.mode == Access || exists v :: Carries(s, vlans, v))
  }

  ghost predicate Serves(port: AsicPort, s: Settings, vlans: set<int>) {
    && port.mode == s.mode
    && port.tag == (if s.mode == Trunk then None else Some(s.vlan))
    && (port.trunks.None? <==> s.mode == Access)
    && (port.trunks.Some? ==>
          && (forall i, j :: 0 <= i < j < |port.trunks.value| ==> port.trunks.value[i] < port.trunks.value[j])
          && (forall v :: v in port.trunks.value <==> Carries(s, vlans, v)))
  }

  /** The ASIC's port of this name is as the settings ask; it is there exactly if they call for one
      and its command is shorter than the buffer. */
  ghost predicate Reflects(asic: map<string, AsicPort>, bridge: string, name: string, s: Settings, vlans: set<int>) {
    && (name in asic ==> Serves(asic[name], s, vlans))
    && (name in asic <==>
          CallsForPort(s, vlans)
          && exists port :: Serves(port, s, vlans) && |CommandText(bridge, name, port)| < MAX_CMD_LEN)
  }

  // ---------------------------------------------------------------- the code's way there

  /** A bundle that has taken the settings over. */
  predicate Styled(c: Cfg, s: Settings) {
    c.mode == s.mode && c.trunks == s.trunks && c.vlan == if 0 < s.vlan < 4095 then s.vlan else -1
  }

  predicate Plain(c: Cfg) { c.mode == Access && c.trunks == None && c.vlan == -1 }

  lemma DesiredServes(c: Cfg, s: Settings, vlans: set<int>)
    requires Styled(c, s)
    ensures var p := Desired(c.mode, c.vlan, c.trunks, vlans);
            (p.Some? <==> CallsForPort(s, vlans)) && (p.Some? ==> Serves(p.value, s, vlans))
  {
    var list := Trunked(vlans, c.trunks);
    ListCarries(s, vlans);
    hide Trunked;
    if list != [] { assert Carries(s, vlans, list[0]); }
    if exists v :: Carries(s, vlans, v) {
      var v :| Carries(s, vlans, v);
      assert v in list;
    }
  }

  lemma ListCarries(s: Settings, vlans: set<int>)
    ensures var list := Trunked(vlans, s.trunks);
            && (forall i, j :: 0 <= i < j < |list| ==> list[i] < list[j])
            && (forall v :: v in list <==> Carries(s, vlans, v))
  {}

  lemma FirstIn(vs: seq<nat>)
    ensures |vs| > 0 ==> vs[0] in vs
  {}

  lemma {:induction false} SameList(a: seq<nat>, b: seq<nat>)
    requires forall i, j :: 0 <= i < j < |a| ==> a[i] < a[j]
    requires forall i, j :: 0 <= i < j < |b| ==> b[i] < b[j]
    requires forall v :: v in a <==> v in b
    ensures a == b
    decreases |a|
  {
    if a == [] {
      FirstIn(b);
    } else {
      assert a[0] in a && a[0] in b;
      assert b[0] in b && b[0] in a;
      assert a[0] == b[0];
      assert a == [a[0]] + a[1..] && b == [b[0]] + b[1..];
      forall v ensures v in a[1..] <==> v in b[1..] {
        assert v in a[1..] <==> v in a && v != a[0];
        assert v in b[1..] <==> v in b && v != b[0];
      }
      SameList(a[1..], b[1..]);
    }
  }

  /** Settings determine the port that serves them. */
  lemma OnePortServes(a: AsicPort, b: AsicPort, s: Settings, vlans: set<int>)
    requires Serves(a, s, vlans) && Serves(b, s, vlans)
    ensures a == b
  {
    if a.trunks.Some? {
      forall v ensures v in a.trunks.value <==> v in b.trunks.value {
        assert v in a.trunks.value <==> Carries(s, vlans, v);
      }
      SameList(a.trunks.value, b.trunks.value);
    }
  }

  lemma StyledReflects(asic: map<string, AsicPort>, c: Cfg, s: Settings, vlans: set<int>, site: Site)
    requires c.kind == L2 && !site.vrf && Styled(c, s)
    requires |site.bridge| < NAME_LIMIT && |c.name| < NAME_LIMIT && Printed(c, vlans, site)
    requires On(asic, c.name) == Given(c, vlans, site)
    ensures Reflects(asic, site.bridge, c.name, s, vlans)
  {
    hide Desired, CommandText, Told, Printable, Serves, CallsForPort, Styled;
    var p := Desired(c.mode, c.vlan, c.trunks, vlans);
    DesiredServes(c, s, vlans);
    DesiredPrintable(c.mode, c.vlan, c.trunks, vlans);
    ToldIs(site.bridge, c.name, p);
    if p.Some? {
      forall port | Serves(port, s, vlans) ensures port == p.value { OnePortServes(port, p.value, s, vlans); }
    }
  }

  lemma PlainIsOff(asic: map<string, AsicPort>, c: Cfg, vlans: set<int>, site: Site)
    requires Plain(c) && On(asic, c.name) == Given(c, vlans, site)
    ensures c.name !in asic
  {
    hide CommandText, Clipped;
  }

  // ---------------------------------------------------------------- one call of bundle_set

  /** The one slave is an internal interface of a bridge. */
  predicate OneInternal(s: Settings, known: map<PortId, PortInfo>, site: Site) {
    !site.vrf && |s.slaves| == 1 && s.slaves[0] in known && known[s.slaves[0]].internal
  }

  /** Fewer than two slaves of several that were entered. */
  predicate Waits(s: Settings) { s.slavesEntered > 1 && |s.slaves| <= 1 }

  predicate IsSlave(s: Settings, known: map<PortId, PortInfo>, p: PortId) { p in s.slaves && p in known }

  /** What becomes of the bundle that is set; `was` is what it was, if it existed. */
  ghost predicate BundleTaken(was: Option<Cfg>, b: Cfg, known: map<PortId, PortInfo>, site: Site, s: Settings) {
    && b.name == s.name
    && (b.bond <==> s.hwBondShouldExist || (was.Some? && was.value.bond))
    // its members: the slaves, and at most what it had before if a slave is named twice
    && (forall p :: IsSlave(s, known, p) ==> p in b.members)
    && (forall p :: p in b.members ==> IsSlave(s, known, p) || (was.Some? && p in was.value.members))
    && ((forall i, j :: 0 <= i < j < |s.slaves| ==> s.slaves[i] != s.slaves[j]) ==>
          forall p :: p in b.members ==> IsSlave(s, known, p))
    // what it is
    && (b.kind == BridgeOwn <==>
          (was.Some? && was.value.kind == BridgeOwn) || (OneInternal(s, known, site) && s.name == site.bridge))
    && (b.kind != BridgeOwn ==>
          (b.kind == Routing <==> OneInternal(s, known, site) && s.vlan != 0)
            && (b.kind == Routing ==> b.vlan == s.vlan))
    && (was.Some? && was.value.kind == Routing ==> b.kind == Routing)
    // and how it is set up
    && (b.kind == L2 && !site.vrf ==>
          if Waits(s) then SetUpAs(was, b) else Styled(b, s))
  }

  predicate SetUpAs(was: Option<Cfg>, b: Cfg) {
    if was.None? then Plain(b)
    else b.mode == was.value.mode && b.vlan == was.value.vlan && b.trunks == was.value.trunks
  }

  /** From configuration `c` to `next`: bundles that had one of the slaves are gone, the others are
      untouched, and the bundle that is set is there if any slave resolves. */
  ghost predicate SettingsTaken(c: Config, next: Config, known: map<PortId, PortInfo>, site: Site, aux: Aux,
                                s: Settings)
  {
    && (forall a :: a != aux ==>
          (a in next <==> a in c && forall p :: IsSlave(s, known, p) ==> p !in c[a].members))
    && (forall a :: a != aux && a in next ==> a in c && next[a] == c[a])
    && (aux in next <==> exists p :: IsSlave(s, known, p))
    && (aux in next ==> BundleTaken(if aux in c then Some(c[aux]) else None, next[aux], known, site, s))
  }

  lemma SetTakes(c: Config, vlans: set<int>, known: map<PortId, PortInfo>, site: Site, aux: Aux, s: Settings)
    requires Handled(c, vlans, known, site, aux, s)
    ensures SettingsTaken(c, ConfigSet(c, aux, s, known, site), known, site, aux, s)
  {
    var next := ConfigSet(c, aux, s, known, site);
    forall p ensures p in Resolved(s.slaves, known) <==> IsSlave(s, known, p) {}
    hide Entitled, Adopted, KindAsked, Settled, Handled;
    forall a | a != aux
      ensures a in next <==> a in c && forall p :: IsSlave(s, known, p) ==> p !in c[a].members
    {}
    if aux in next { BundleTakes(c, vlans, known, site, aux, s); }
  }

  lemma BundleTakes(c: Config, vlans: set<int>, known: map<PortId, PortInfo>, site: Site, aux: Aux, s: Settings)
    requires Handled(c, vlans, known, site, aux, s) && aux in ConfigSet(c, aux, s, known, site)
    ensures BundleTaken(if aux in c then Some(c[aux]) else None, ConfigSet(c, aux, s, known, site)[aux], known, site, s)
  {
    var was := Before(c, aux, s.name);
    hide Entitled, Resolved, Settled, KindAsked, OneInternal, IsSlave, Styled, Plain;
    assert Resolved(s.slaves, known) != {};
    hide Others;
    MembersTaken(was.members, s, known);
    KindTaken(s, known, site);
    ClampTaken(s);
  }

  lemma MembersTaken(was: set<PortId>, s: Settings, known: map<PortId, PortInfo>)
    ensures var now := Settled(was, s.slaves, known);
            && (forall p :: IsSlave(s, known, p) ==> p in now)
            && (forall p :: p in now ==> IsSlave(s, known, p) || p in was)
            && ((forall i, j :: 0 <= i < j < |s.slaves| ==> s.slaves[i] != s.slaves[j]) ==>
                  forall p :: p in now ==> IsSlave(s, known, p))
  {
    if forall i, j :: 0 <= i < j < |s.slaves| ==> s.slaves[i] != s.slaves[j] {
      DistinctSlavesSettle(was, s.slaves, known);
    }
  }

  lemma KindTaken(s: Settings, known: map<PortId, PortInfo>, site: Site)
    ensures KindAsked(s, known, site)
            == if OneInternal(s, known, site) && s.name == site.bridge then BridgeOwn
               else if OneInternal(s, known, site) && s.vlan != 0 then Routing
               else L2
  {}

  lemma ClampTaken(s: Settings)
    ensures forall c: Cfg :: Styled(c.(mode := s.mode, vlan := ClampedVlan(s.vlan), trunks := s.trunks), s)
    ensures forall c: Cfg :: c.mode == Access && c.vlan == -1 && c.trunks == None ==> Plain(c)
  {}

  lemma StyledNow(was: Option<Cfg>, b: Cfg, known: map<PortId, PortInfo>, site: Site, s: Settings)
    requires BundleTaken(was, b, known, site, s) && b.kind == L2 && !site.vrf && !Waits(s)
    ensures Styled(b, s) && b.name == s.name
  {}

  // ---------------------------------------------------------------- the other calls

  /** A port goes away: its bundle goes with it, unless that is a LAG. */
  ghost predicate PortLeft(c: Config, next: Config, p: PortId) {
    forall a :: (a in next <==> a in c && (p in c[a].members ==> c[a].bond)) && (a in next ==> next[a] == c[a])
  }

  lemma PortLeaves(c: Config, p: PortId)
    ensures PortLeft(c, WithoutPort(c, p), p)
  {}

  /** The port is in the same bundle as before. */
  ghost predicate SameBundle(c: Config, next: Config, p: PortId) {
    exists a :: a in c && a in next && p in c[a].members && p in next[a].members
  }

  lemma StaysSame(flagged: set<PortId>, c: Config, next: Config)
    ensures forall p :: p in Kept(flagged, c, next) <==> p in flagged && SameBundle(c, next, p)
  {
    forall p ensures Stays(c, next, p) <==> SameBundle(c, next, p) {}
  }

  /** The flags after a bundle is set: ports that stay in their bundle keep them, and all ports of the
      bundle get them if the ASIC is to switch for it. */
  ghost predicate FlagsAfterSet(was: set<PortId>, now: set<PortId>, c: Config, next: Config, site: Site, aux: Aux,
                                s: Settings)
  {
    forall p :: p in now <==>
      || (p in was && SameBundle(c, next, p))
      || (aux in next && next[aux].kind == L2 && !site.vrf && !Waits(s) && p in next[aux].members)
  }

  /** The flags after the VLANs change: all ports of ordinary bundles have them. */
  ghost predicate FlagsAfterVlan(was: set<PortId>, now: set<PortId>, c: Config, site: Site) {
    forall p :: p in now <==>
      p in was || (!site.vrf && exists a :: a in c && c[a].kind == L2 && p in c[a].members)
  }

  lemma SetFlags(flagged: set<PortId>, c: Config, next: Config, site: Site, aux: Aux, s: Settings)
    ensures FlagsAfterSet(flagged, Kept(flagged, c, next) + BlockedBySet(next, aux, s, site), c, next, site, aux, s)
  {
    forall p ensures Stays(c, next, p) <==> SameBundle(c, next, p) {}
    hide Stays, SameBundle;
  }

  lemma VlanFlags(flagged: set<PortId>, vlans: set<int>, vid: int, add: bool, c: Config, site: Site)
    ensures add != (vid in vlans) ==>
              FlagsAfterVlan(flagged, flagged + BlockedByVlan(vlans, vid, add, c, site), c, site)
  {}

  // ---------------------------------------------------------------- runs

  /** The call sets the bundle up. */
  predicate SetsUp(op: Op, a: Aux) {
    op.SetBundle? && op.aux == a && op.settings.Some? && !Waits(op.settings.value)
  }

  /** The settings that last set each bundle up. */
  function Latest(latest: map<Aux, Settings>, w: Want, op: Op, known: map<PortId, PortInfo>, site: Site)
    : map<Aux, Settings>
  {
    if w.stopped || !Made(w, op, known, site) then latest
    else
      var next := Asked(w, op, known, site).bundles;
      map a | a in next && (SetsUp(op, a) || a in latest) :: if SetsUp(op, a) then op.settings.value else latest[a]
  }

  function LatestAll(latest: map<Aux, Settings>, w: Want, ops: seq<Op>, known: map<PortId, PortInfo>, site: Site)
    : map<Aux, Settings>
    decreases |ops|
  {
    if ops == [] then latest
    else LatestAll(Latest(latest, w, ops[0], known, site), Asked(w, ops[0], known, site), ops[1..], known, site)
  }

  /** Each ordinary bundle is as the latest settings set it up, or plain if none did. */
  ghost predicate AllStyled(w: Want, latest: map<Aux, Settings>) {
    && latest.Keys <= w.bundles.Keys
    && forall a :: a in w.bundles && w.bundles[a].kind == L2 ==>
         if a in latest then Styled(w.bundles[a], latest[a]) else Plain(w.bundles[a])
  }

  lemma StyledStep(w: Want, latest: map<Aux, Settings>, op: Op, known: map<PortId, PortInfo>, site: Site)
    requires AllStyled(w, latest) && !site.vrf
    ensures AllStyled(Asked(w, op, known, site), Latest(latest, w, op, known, site))
  {
    hide ConfigSet, Handled, Styled, Plain, TooLong, Kept, Blocks, BundleTaken;
    if !w.stopped && Made(w, op, known, site) && op.SetBundle? && op.settings.Some? {
      var (aux, s, c) := (op.aux, op.settings.value, w.bundles);
      SetTakes(c, w.vlans, known, site, aux, s);
      var next := ConfigSet(c, aux, s, known, site);
      if aux in next {
        SetUpFrom(if aux in c then Some(c[aux]) else None, next[aux], known, site, s,
                  if aux in latest then Some(latest[aux]) else None);
      }
    }
  }

  lemma SetUpFrom(was: Option<Cfg>, b: Cfg, known: map<PortId, PortInfo>, site: Site, s: Settings,
                  latest: Option<Settings>)
    requires BundleTaken(was, b, known, site, s) && !site.vrf && (was.None? ==> latest.None?)
    requires was.Some? && was.value.kind == L2 ==>
               if latest.Some? then Styled(was.value, latest.value) else Plain(was.value)
    ensures b.kind == L2 ==>
              if !Waits(s) then Styled(b, s) else if latest.Some? then Styled(b, latest.value) else Plain(b)
  {}

  lemma {:induction false} StyledAll(w: Want, latest: map<Aux, Settings>, ops: seq<Op>, known: map<PortId, PortInfo>,
                                     site: Site)
    requires AllStyled(w, latest) && !site.vrf
    ensures AllStyled(AskedAll(w, ops, known, site), LatestAll(latest, w, ops, known, site))
    decreases |ops|
  {
    hide AllStyled, Asked, Latest;
    if ops != [] {
      StyledStep(w, latest, ops[0], known, site);
      StyledAll(Asked(w, ops[0], known, site), Latest(latest, w, ops[0], known, site), ops[1..], known, site);
    }
  }

  /** The ASIC has the port of each ordinary bundle as its latest settings ask, none for a bundle that
      was never set up, and no other port. */
  ghost predicate AllReflect(asic: map<string, AsicPort>, c: Config, vlans: set<int>, latest: map<Aux, Settings>,
                             site: Site)
  {
    && (forall a :: a in c && c[a].kind == L2 ==>
          if a in latest then Reflects(asic, site.bridge, c[a].name, latest[a], vlans) else c[a].name !in asic)
    && (forall n :: n in asic ==> exists a :: a in c && c[a].name == n && c[a].kind == L2)
  }

  /** After any run of calls, in terms of the settings alone. */
  lemma RunReflects(asic: map<string, AsicPort>, w: Want, latest: map<Aux, Settings>, site: Site)
    requires AllStyled(w, latest) && AsicFollows(asic, w, site) && !TooLong(w.bundles, w.vlans, site) && !site.vrf
    requires |site.bridge| < NAME_LIMIT && forall a :: a in w.bundles ==> |w.bundles[a].name| < NAME_LIMIT
    ensures AllReflect(asic, w.bundles, w.vlans, latest, site)
  {
    var c := w.bundles;
    hide Given, Printed, Styled, Plain, Reflects, BridgeFits;
    forall a | a in c && c[a].kind == L2
      ensures if a in latest then Reflects(asic, site.bridge, c[a].name, latest[a], w.vlans) else c[a].name !in asic
    {
      if a in latest {
        StyledReflects(asic, c[a], latest[a], w.vlans, site);
      } else {
        PlainIsOff(asic, c[a], w.vlans, site);
      }
    }
    forall n | n in asic ensures exists a :: a in c && c[a].name == n && c[a].kind == L2 {
      var a :| a in c && c[a].name == n;
      NoneForOthers(c[a], w.vlans, site);
      assert c[a].kind == L2;
    }
  }

  lemma NoneForOthers(c: Cfg, vlans: set<int>, site: Site)
    ensures c.kind != L2 ==> Given(c, vlans, site) == None
  {}

  lemma EmptyStyled(w: Want)
    requires w.bundles == map[]
    ensures AllStyled(w, map[])
  {}

  lemma ListOfRouted(routed: set<int>)
    ensures forall v :: v in Trunked(routed, None) <==> 1 <= v <= 4094 && v in routed
    ensures Trunked(routed, None) == [] ==> forall v :: 1 <= v <= 4094 ==> v !in routed
  {}
}
