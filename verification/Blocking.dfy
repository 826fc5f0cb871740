/** Which ports are kept from the kernel, over runs of calls (src/ofproto-sim-provider.c).

    A port gets its DROP rules when its bundle is programmed and loses them when it leaves the bundle.
    So a port that joins a LAG in a call that is postponed has none, also when the LAG is on the ASIC
    already and the ASIC switches the port's traffic. */
module Blocking {
  import opened Wrappers
  import opened PortCommand
  import opened VlanList
  import opened Bundles

  // ---------------------------------------------------------------- since when a port is blocked

  /** The call programs the bundle that the port is in afterwards. */
  predicate ProgramsFor(w: Want, op: Op, p: PortId, known: map<PortId, PortInfo>, site: Site) {
    !w.stopped && Made(w, op, known, site) && p in Blocks(w.vlans, op, BundlesAsked(w.bundles, op, known, site), site)
  }

  /** The port is in the same bundle before and after the call, or nothing is done. */
  predicate StaysOver(w: Want, op: Op, p: PortId, known: map<PortId, PortInfo>, site: Site) {
    !w.stopped && Made(w, op, known, site) ==> Stays(w.bundles, BundlesAsked(w.bundles, op, known, site), p)
  }

  lemma BlockedStep(w: Want, op: Op, p: PortId, known: map<PortId, PortInfo>, site: Site)
    ensures p in Asked(w, op, known, site).blocked <==>
            ProgramsFor(w, op, p, known, site) || (p in w.blocked && StaysOver(w, op, p, known, site))
  {
    hide Made, BundlesAsked, VlansAsked, TooLong, Blocks, Stays;
  }

  /** What was asked for by the first `i` calls. */
  function UpTo(w: Want, ops: seq<Op>, i: nat, known: map<PortId, PortInfo>, site: Site): Want
    requires i <= |ops|
  {
    AskedAll(w, ops[..i], known, site)
  }

  /** Its bundle was programmed by the call before the `i`th, and the port has stayed in it. */
  ghost predicate Since(w: Want, ops: seq<Op>, i: nat, p: PortId, known: map<PortId, PortInfo>, site: Site)
    requires i <= |ops|
  {
    && (if i == 0 then p in w.blocked else ProgramsFor(UpTo(w, ops, i - 1, known, site), ops[i - 1], p, known, site))
    && forall j :: i <= j < |ops| ==> StaysOver(UpTo(w, ops, j, known, site), ops[j], p, known, site)
  }

  lemma {:induction false} AskedSnoc(w: Want, ops: seq<Op>, op: Op, known: map<PortId, PortInfo>, site: Site)
    ensures AskedAll(w, ops + [op], known, site) == Asked(AskedAll(w, ops, known, site), op, known, site)
    decreases |ops|
  {
    hide Asked;
    if ops == [] {
      assert ops + [op] == [op] && [op][1..] == [];
    } else {
      assert (ops + [op])[1..] == ops[1..] + [op];
      AskedSnoc(Asked(w, ops[0], known, site), ops[1..], op, known, site);
    }
  }

  lemma SinceSnoc(w: Want, ops: seq<Op>, op: Op, i: nat, p: PortId, known: map<PortId, PortInfo>, site: Site)
    requires i <= |ops|
    ensures Since(w, ops + [op], i, p, known, site) <==>
            Since(w, ops, i, p, known, site) && StaysOver(AskedAll(w, ops, known, site), op, p, known, site)
  {
    hide StaysOver, ProgramsFor, AskedAll;
    var more := ops + [op];
    assert forall j :: 0 <= j <= |ops| ==> more[..j] == ops[..j];
    assert ops[..|ops|] == ops && more[|ops|] == op;
    assert UpTo(w, more, |ops|, known, site) == AskedAll(w, ops, known, site);
    forall j | 0 <= j < |ops|
      ensures more[j] == ops[j] && UpTo(w, more, j, known, site) == UpTo(w, ops, j, known, site)
    {}
    if i > 0 { assert more[i - 1] == ops[i - 1]; }
  }

  /** Over any run: a port is kept from the kernel if and only if it was programmed by some call, or
      kept from it at the start, and has stayed in its bundle ever since. */
  lemma {:induction false} BlockedIff(w: Want, ops: seq<Op>, p: PortId, known: map<PortId, PortInfo>, site: Site)
    ensures p in AskedAll(w, ops, known, site).blocked <==>
            exists i :: 0 <= i <= |ops| && Since(w, ops, i, p, known, site)
    decreases |ops|
  {
    hide Asked, ProgramsFor, StaysOver;
    if ops == [] {
      assert p in w.blocked <==> Since(w, ops, 0, p, known, site);
    } else {
      var (front, op) := (ops[..|ops| - 1], ops[|ops| - 1]);
      assert ops == front + [op];
      var before := AskedAll(w, front, known, site);
      AskedSnoc(w, front, op, known, site);
      BlockedStep(before, op, p, known, site);
      BlockedIff(w, front, p, known, site);
      LastSince(w, front, op, p, known, site);
      forall i | 0 <= i <= |front|
        ensures Since(w, ops, i, p, known, site) <==>
                Since(w, front, i, p, known, site) && StaysOver(before, op, p, known, site)
      {
        SinceSnoc(w, front, op, i, p, known, site);
      }
    }
  }

  lemma LastSince(w: Want, ops: seq<Op>, op: Op, p: PortId, known: map<PortId, PortInfo>, site: Site)
    ensures Since(w, ops + [op], |ops| + 1, p, known, site) <==>
            ProgramsFor(AskedAll(w, ops, known, site), op, p, known, site)
  {
    hide AskedAll, ProgramsFor, StaysOver;
    var more := ops + [op];
    assert more[..|ops|] == ops && more[|ops|] == op;
    assert UpTo(w, more, |ops|, known, site) == AskedAll(w, ops, known, site);
  }

  // ---------------------------------------------------------------- when the kernel gets switched traffic

  predicate OnAsic(w: Want, a: Aux, site: Site) { a in w.bundles && Given(w.bundles[a], w.vlans, site).Some? }

  /** Every port that the ASIC switches for is kept from the kernel, as long as the program runs. */
  ghost predicate ShutOut(w: Want, site: Site) {
    w.stopped || forall a :: OnAsic(w, a, site) ==> w.bundles[a].members <= w.blocked
  }

  /** A bundle on the ASIC is given one new member in a call that is postponed. */
  predicate LetsIn(w: Want, op: Op, known: map<PortId, PortInfo>, site: Site) {
    && !w.stopped && Made(w, op, known, site) && op.SetBundle? && op.settings.Some? && OnAsic(w, op.aux, site)
    && var s := op.settings.value;
       Postponed(s) && |s.slaves| == 1 && s.slaves[0] in known && s.slaves[0] !in w.bundles[op.aux].members
  }

  predicate Running(w: Want, site: Site) { !w.stopped ==> !TooLong(w.bundles, w.vlans, site) }

  /** What a postponed call, or one on another bundle, leaves as it is. */
  predicate SameFace(one: Cfg, two: Cfg) {
    && one.kind == two.kind && one.name == two.name && one.mode == two.mode && one.vlan == two.vlan
    && one.trunks == two.trunks
  }

  lemma SameGiven(one: Cfg, two: Cfg, vlans: set<int>, site: Site)
    requires SameFace(one, two)
    ensures Given(one, vlans, site) == Given(two, vlans, site) && Printed(one, vlans, site) == Printed(two, vlans, site)
  {
    hide Told, Desired, Fits;
  }

  lemma GivenEntitled(c: Cfg, vlans: set<int>, site: Site)
    ensures Given(c, vlans, site).Some? ==> Entitled(c, vlans, site).Some? && c.kind == L2 && !site.vrf
  {
    hide Desired, CommandText, Clipped, ReadPort, Head;
  }

  /** Calls that leave what is left of the bundles as it was. */
  lemma FewerBundles(w: Want, next: Want, site: Site)
    requires ShutOut(w, site) && !w.stopped && next.vlans == w.vlans
    requires forall a :: a in next.bundles ==> a in w.bundles && next.bundles[a] == w.bundles[a]
    requires Kept(w.blocked, w.bundles, next.bundles) <= next.blocked
    ensures ShutOut(next, site)
  {
    hide Given;
    forall a | OnAsic(next, a, site) ensures next.bundles[a].members <= next.blocked {
      assert OnAsic(w, a, site);
      forall p | p in next.bundles[a].members ensures p in next.blocked {
        assert Stays(w.bundles, next.bundles, p);
      }
    }
  }

  /** A postponed call leaves a bundle on the ASIC as it is but for its members, and puts none there. */
  lemma PostponedFace(c: Config, vlans: set<int>, known: map<PortId, PortInfo>, site: Site, aux: Aux, s: Settings)
    requires Handled(c, vlans, known, site, aux, s) && Postponed(s) && Resolved(s.slaves, known) != {}
    ensures var next := ConfigSet(c, aux, s, known, site);
            && aux in next
            && next[aux].members == Settled(Before(c, aux, s.name).members, s.slaves, known)
            && (Given(next[aux], vlans, site).Some? ==> aux in c && SameFace(next[aux], c[aux]))
            && (aux in c && Given(c[aux], vlans, site).Some? ==> SameFace(next[aux], c[aux]))
  {
    var was, next := Before(c, aux, s.name), ConfigSet(c, aux, s, known, site);
    var asked := KindAsked(s, known, site);
    hide Settled, Resolved, KindAsked, Others, Given, Postponed;
    GivenEntitled(was, vlans, site);
    GivenEntitled(next[aux], vlans, site);
    if Given(next[aux], vlans, site).Some? {
      assert Entitled(was, vlans, site) == Entitled(next[aux], vlans, site);
    }
  }

  lemma OthersSame(c: Config, aux: Aux, s: Settings, known: map<PortId, PortInfo>, site: Site)
    ensures var next := ConfigSet(c, aux, s, known, site);
            forall a :: a in next && a != aux ==>
              a in c && next[a] == c[a] && next[a].members !! Resolved(s.slaves, known)
    ensures aux in ConfigSet(c, aux, s, known, site) ==> Resolved(s.slaves, known) != {}
  {
    hide Settled, KindAsked, Adopted, Before, Resolved;
  }

  /** One slave joins; nothing else does. */
  lemma SettledOne(was: set<PortId>, slaves: seq<PortId>, known: map<PortId, PortInfo>)
    requires |slaves| <= 1
    ensures Settled(was, slaves, known) <= was <==> !(|slaves| == 1 && slaves[0] in known && slaves[0] !in was)
    ensures Settled(was, slaves, known) <= was + Resolved(slaves, known)
  {
    if |slaves| == 1 && slaves[0] in known { assert slaves[0] in Resolved(slaves, known); }
  }

  /** The bundle that is set: its ports stay out of the kernel unless one joins in a postponed call. */
  lemma SetShutsOut(w: Want, known: map<PortId, PortInfo>, site: Site, aux: Aux, s: Settings)
    requires !w.stopped && ShutOut(w, site) && Handled(w.bundles, w.vlans, known, site, aux, s)
    ensures var (op, next) := (SetBundle(aux, Some(s)), Asked(w, SetBundle(aux, Some(s)), known, site));
            OnAsic(next, aux, site) ==>
              (next.bundles[aux].members <= next.blocked <==> !LetsIn(w, op, known, site))
    ensures LetsIn(w, SetBundle(aux, Some(s)), known, site) ==>
              OnAsic(Asked(w, SetBundle(aux, Some(s)), known, site), aux, site)
  {
    hide Handled, ConfigSet, TooLong, Given, Resolved, Settled, Kept, Stays, SameFace;
    var (op, c) := (SetBundle(aux, Some(s)), w.bundles);
    var next := Asked(w, op, known, site);
    OthersSame(c, aux, s, known, site);
    OneResolved(s.slaves, known);
    if !Postponed(s) {
      if OnAsic(next, aux, site) { GivenEntitled(next.bundles[aux], w.vlans, site); }
    } else if Resolved(s.slaves, known) != {} {
      PostponedFace(c, w.vlans, known, site, aux, s);
      if aux in c { SameGivenIf(next.bundles[aux], c[aux], w.vlans, site); }
      SettledOne(Before(c, aux, s.name).members, s.slaves, known);
      if OnAsic(next, aux, site) { PostponedBlocks(w, next, known, site, aux, s); }
    }
  }

  lemma OneResolved(slaves: seq<PortId>, known: map<PortId, PortInfo>)
    ensures |slaves| == 1 && slaves[0] in known ==> Resolved(slaves, known) != {}
  {
    if |slaves| == 1 && slaves[0] in known { assert slaves[0] in Resolved(slaves, known); }
  }

  lemma SameGivenIf(one: Cfg, two: Cfg, vlans: set<int>, site: Site)
    ensures SameFace(one, two) ==> Given(one, vlans, site) == Given(two, vlans, site)
  {
    if SameFace(one, two) { SameGiven(one, two, vlans, site); }
  }

  lemma PostponedBlocks(w: Want, next: Want, known: map<PortId, PortInfo>, site: Site, aux: Aux, s: Settings)
    requires Postponed(s) && aux in w.bundles && w.bundles[aux].members <= w.blocked
    requires aux in next.bundles && next.bundles == ConfigSet(w.bundles, aux, s, known, site)
    requires next.blocked == Kept(w.blocked, w.bundles, next.bundles)
    requires next.bundles[aux].members <= w.bundles[aux].members + Resolved(s.slaves, known)
    ensures next.bundles[aux].members <= next.blocked <==> next.bundles[aux].members <= w.bundles[aux].members
  {
    var (was, now) := (w.bundles[aux].members, next.bundles[aux].members);
    OthersSame(w.bundles, aux, s, known, site);
    hide ConfigSet, Resolved;
    forall p | p in now ensures p in next.blocked <==> p in was {
      if p in was { assert Stays(w.bundles, next.bundles, p); }
    }
  }

  /** Every other bundle keeps its ports out of the kernel. */
  lemma OthersShutOut(w: Want, known: map<PortId, PortInfo>, site: Site, aux: Aux, s: Settings)
    requires !w.stopped && ShutOut(w, site) && Handled(w.bundles, w.vlans, known, site, aux, s)
    ensures var next := Asked(w, SetBundle(aux, Some(s)), known, site);
            forall a :: OnAsic(next, a, site) && a != aux ==> next.bundles[a].members <= next.blocked
  {
    var next := Asked(w, SetBundle(aux, Some(s)), known, site);
    OthersSame(w.bundles, aux, s, known, site);
    hide Handled, ConfigSet, TooLong, Given, Resolved;
    forall a | OnAsic(next, a, site) && a != aux ensures next.bundles[a].members <= next.blocked {
      assert OnAsic(w, a, site);
      forall p | p in next.bundles[a].members ensures p in next.blocked {
        assert Stays(w.bundles, next.bundles, p);
      }
    }
  }

  /** Changing the VLANs programs all ordinary bundles. */
  lemma VlanShutsOut(w: Want, known: map<PortId, PortInfo>, site: Site, vid: int, add: bool)
    requires !w.stopped && ShutOut(w, site) && 0 <= vid < 4096
    ensures ShutOut(Asked(w, SetVlanBit(vid, add), known, site), site)
  {
    var next := Asked(w, SetVlanBit(vid, add), known, site);
    hide TooLong, Given;
    if add == (vid in w.vlans) {
      assert next.vlans == w.vlans;
      FewerBundles(w, next, site);
    } else {
      forall a | OnAsic(next, a, site) ensures next.bundles[a].members <= next.blocked {
        GivenEntitled(next.bundles[a], next.vlans, site);
      }
    }
  }

  /** A call that lets a port in does not make a command longer, so the program runs on. */
  lemma LetsInFits(w: Want, op: Op, known: map<PortId, PortInfo>, site: Site)
    requires LetsIn(w, op, known, site) && Running(w, site)
    ensures !Asked(w, op, known, site).stopped
  {
    var (c, aux, s) := (w.bundles, op.aux, op.settings.value);
    var next := ConfigSet(c, aux, s, known, site);
    hide ConfigSet, Given, Printed, BridgeFits, Handled, Resolved, Settled, Before;
    OneResolved(s.slaves, known);
    PostponedFace(c, w.vlans, known, site, aux, s);
    OthersSame(c, aux, s, known, site);
    SameGiven(next[aux], c[aux], w.vlans, site);
    forall a | a in next ensures Printed(next[a], w.vlans, site) {
      if a == aux { assert Printed(c[aux], w.vlans, site); }
    }
    forall v | v in RoutedVlans(next) ensures v in RoutedVlans(c) {
      var a :| a in next && next[a].kind == Routing && next[a].vlan == v;
      assert a in c && c[a].kind == Routing && c[a].vlan == v;
    }
    FewerFit(site.bridge, RoutedVlans(next), RoutedVlans(c));
  }

  /** One call: the kernel goes on getting none of the switched traffic unless a port is let in. */
  lemma StepShutsOut(w: Want, op: Op, known: map<PortId, PortInfo>, site: Site)
    requires ShutOut(w, site) && Running(w, site)
    ensures Running(Asked(w, op, known, site), site)
    ensures ShutOut(Asked(w, op, known, site), site) <==> !LetsIn(w, op, known, site)
  {
    var next := Asked(w, op, known, site);
    if LetsIn(w, op, known, site) { LetsInFits(w, op, known, site); }
    hide TooLong, Given, Handled, ConfigSet;
    if w.stopped || !Made(w, op, known, site) { return; }
    match op
    case SetBundle(aux, settings) =>
      if settings.Some? {
        SetShutsOut(w, known, site, aux, settings.value);
        OthersShutOut(w, known, site, aux, settings.value);
      } else {
        FewerBundles(w, next, site);
      }
    case SetVlanBit(vid, add) => VlanShutsOut(w, known, site, vid, add);
    case RemovePort(p) => FewerBundles(w, next, site);
  }

  lemma {:induction false} ShutOutUpTo(w: Want, ops: seq<Op>, i: nat, known: map<PortId, PortInfo>, site: Site)
    requires ShutOut(w, site) && Running(w, site) && i <= |ops|
    requires forall k :: 0 <= k < i ==> !LetsIn(UpTo(w, ops, k, known, site), ops[k], known, site)
    ensures ShutOut(UpTo(w, ops, i, known, site), site) && Running(UpTo(w, ops, i, known, site), site)
    decreases i
  {
    hide ShutOut, Running, LetsIn, Asked;
    if i > 0 {
      ShutOutUpTo(w, ops, i - 1, known, site);
      assert ops[..i] == ops[..i - 1] + [ops[i - 1]];
      AskedSnoc(w, ops[..i - 1], ops[i - 1], known, site);
      StepShutsOut(UpTo(w, ops, i - 1, known, site), ops[i - 1], known, site);
    }
  }

  /** Over any run: all along, every port of every bundle on the ASIC is kept from the kernel, if and
      only if no postponed call gives a new member to a bundle that is there. */
  lemma ShutOutThroughoutIff(w: Want, ops: seq<Op>, known: map<PortId, PortInfo>, site: Site)
    requires ShutOut(w, site) && Running(w, site)
    ensures (forall i :: 0 <= i <= |ops| ==> ShutOut(UpTo(w, ops, i, known, site), site)) <==>
            (forall i :: 0 <= i < |ops| ==> !LetsIn(UpTo(w, ops, i, known, site), ops[i], known, site))
  {
    hide ShutOut, Running, LetsIn, Asked, AskedAll;
    if forall i :: 0 <= i < |ops| ==> !LetsIn(UpTo(w, ops, i, known, site), ops[i], known, site) {
      forall i | 0 <= i <= |ops| ensures ShutOut(UpTo(w, ops, i, known, site), site) {
        ShutOutUpTo(w, ops, i, known, site);
      }
    } else {
      var k := FirstLetIn(w, ops, known, site);
      ShutOutUpTo(w, ops, k, known, site);
      assert ops[..k + 1] == ops[..k] + [ops[k]];
      AskedSnoc(w, ops[..k], ops[k], known, site);
      StepShutsOut(UpTo(w, ops, k, known, site), ops[k], known, site);
      assert !ShutOut(UpTo(w, ops, k + 1, known, site), site);
    }
  }

  lemma FirstLetIn(w: Want, ops: seq<Op>, known: map<PortId, PortInfo>, site: Site) returns (k: nat)
    requires exists i :: 0 <= i < |ops| && LetsIn(UpTo(w, ops, i, known, site), ops[i], known, site)
    ensures k < |ops| && LetsIn(UpTo(w, ops, k, known, site), ops[k], known, site)
    ensures forall i :: 0 <= i < k ==> !LetsIn(UpTo(w, ops, i, known, site), ops[i], known, site)
  {
    hide LetsIn, UpTo;
    k := 0;
    while !LetsIn(UpTo(w, ops, k, known, site), ops[k], known, site)
      invariant k < |ops| && forall i :: 0 <= i < k ==> !LetsIn(UpTo(w, ops, i, known, site), ops[i], known, site)
      decreases |ops| - k
    {
      k := k + 1;
    }
  }

  /** What this means for the outside tables. */
  lemma ShutOutByRules(bundles: map<Aux, Bundle>, owner: map<PortId, Aux>, known: map<PortId, PortInfo>,
                       asic: map<string, AsicPort>, vlans: set<int>, site: Site, flagged: set<PortId>,
                       input: multiset<string>, forward: multiset<string>)
    requires LinksOk(bundles, owner, known) && AsicOk(bundles, asic, vlans, site, {})
    requires DropsOk(known, owner, flagged, input, forward)
    ensures ShutOut(Want(ConfigOf(bundles), vlans, flagged, false), site) <==>
            forall a :: a in bundles && bundles[a].name in asic ==> RulesOfMembers(bundles[a], known, input, forward)
  {
    var w := Want(ConfigOf(bundles), vlans, flagged, false);
    hide LinksOk, AsicOk, DropsOk, OnAsic, RulesOfMembers, ConfigOf;
    forall a
      ensures OnAsic(w, a, site) <==> a in bundles && bundles[a].name in asic
      ensures a in bundles ==>
                a in w.bundles
                  && (w.bundles[a].members <= flagged <==> RulesOfMembers(bundles[a], known, input, forward))
    {
      OnAsicByName(bundles, asic, vlans, site, flagged, a);
      if a in bundles { RulesByFlag(bundles, owner, known, flagged, input, forward, a); }
    }
  }

  ghost predicate RulesOfMembers(b: Bundle, known: map<PortId, PortInfo>, input: multiset<string>,
                                 forward: multiset<string>)
  {
    forall p :: p in b.ports ==> p in known && input[known[p].name] == 1 == forward[known[p].name]
  }

  lemma OnAsicByName(bundles: map<Aux, Bundle>, asic: map<string, AsicPort>, vlans: set<int>, site: Site,
                     flagged: set<PortId>, a: Aux)
    requires AsicOk(bundles, asic, vlans, site, {})
    ensures OnAsic(Want(ConfigOf(bundles), vlans, flagged, false), a, site) <==> a in bundles && bundles[a].name in asic
    ensures a in bundles ==> a in ConfigOf(bundles) && ConfigOf(bundles)[a].members == PortSet(bundles[a].ports)
  {
    hide AsicOk, Given;
    if a in bundles {
      AddedEntitled(bundles, asic, vlans, site, a);
      assert ConfigOf(bundles)[a] == CfgOf(bundles[a]);
    }
  }

  lemma RulesByFlag(bundles: map<Aux, Bundle>, owner: map<PortId, Aux>, known: map<PortId, PortInfo>,
                    flagged: set<PortId>,
                    input: multiset<string>, forward: multiset<string>, a: Aux)
    requires LinksOk(bundles, owner, known) && DropsOk(known, owner, flagged, input, forward) && a in bundles
    ensures PortSet(bundles[a].ports) <= flagged <==> RulesOfMembers(bundles[a], known, input, forward)
  {
    forall p | p in bundles[a].ports ensures p in PortSet(bundles[a].ports) && p in known {}
    hide LinksOk, UniqueDevices;
  }

  // ---------------------------------------------------------------- a member that comes late

  /** A LAG of access ports of VLAN 7. */
  function AccessLag(members: set<PortId>): Cfg { Cfg("lag1", L2, members, Access, 7, None, true) }

  function OneLag(members: set<PortId>): Config { map[5 := AccessLag(members)] }

  function AccessLagSettings(slaves: seq<PortId>, entered: nat): Settings {
    Settings("lag1", slaves, entered, 7, Access, None, true)
  }

  /** Its command is short, and puts it on the ASIC once the VLAN is enabled. */
  lemma AccessLagOnAsic(members: set<PortId>)
    ensures var (c, site) := (AccessLag(members), Site("br0", false));
            Given(c, {7}, site).Some? && !TooLong(OneLag(members), {7}, site)
  {
    var (c, site) := (AccessLag(members), Site("br0", false));
    var port := Desired(Access, 7, None, {7});
    CommandParts("br0", "lag1", port.value);
    ModeLength(Access);
    DigitsLength(7);
    DesiredPrintable(Access, 7, None, {7});
    NothingTrunked();
    assert RoutedVlans(map[5 := c]) == {};
    hide Head, ModeText, Digits, Trunked, CommandText, Printable, BridgeHead;
    ToldIs("br0", "lag1", port);
  }

  lemma FirstMember(known: map<PortId, PortInfo>, site: Site)
    requires TwoPorts(known) && site == Site("br0", false)
    ensures Handled(map[], {7}, known, site, 5, AccessLagSettings([1], 1))
    ensures ConfigSet(map[], 5, AccessLagSettings([1], 1), known, site) == OneLag({1})
    ensures Kept({}, map[], OneLag({1})) == {} && BlockedBySet(OneLag({1}), 5, AccessLagSettings([1], 1), site) == {1}
  {
    hide Desired;
    assert Resolved([1], known) == {1} && PortSet([1]) == {1} && {} + {1} == {1};
    assert Others(map[], 5, {1}) == map[];
    assert "lag1"[0] != 'e';
  }

  lemma LateMember(known: map<PortId, PortInfo>, site: Site, flagged: set<PortId>)
    requires TwoPorts(known) && site == Site("br0", false)
    ensures Handled(OneLag({1}), {7}, known, site, 5, AccessLagSettings([2], 2))
    ensures ConfigSet(OneLag({1}), 5, AccessLagSettings([2], 2), known, site) == OneLag({2})
    ensures Kept(flagged, OneLag({1}), OneLag({2})) == {}
    ensures BlockedBySet(OneLag({2}), 5, AccessLagSettings([2], 2), site) == {}
  {
    hide Desired;
    assert Resolved([2], known) == {2} && PortSet([2]) == {2} && |{1, 2}| == 2 && {1} + {2} == {1, 2};
    assert Others(OneLag({1}), 5, {2}) == map[];
    assert "lag1"[0] != 'e';
  }

  lemma NamedLag(asic: map<string, AsicPort>, blocked: set<PortId>, members: set<PortId>)
    requires AsicFollows(asic, Want(OneLag(members), {7}, blocked, false), Site("br0", false))
    ensures "lag1" in asic
  {
    AccessLagOnAsic(members);
    hide Given;
    assert OneLag(members)[5] == AccessLag(members);
    assert On(asic, "lag1") == Given(AccessLag(members), {7}, Site("br0", false));
  }

  lemma UnblockedPort(known: map<PortId, PortInfo>, input: multiset<string>, forward: multiset<string>, p: PortId)
    requires DropsFollow({}, known, input, forward) && p in known
    ensures input[known[p].name] == 0 == forward[known[p].name]
  {}

  lemma NothingAsked()
    ensures ConfigOf(map[]) == map[] && Switched(map[]) == {} && !TooLong(map[], {7}, Site("br0", false))
  {
    NothingTrunked();
    assert RoutedVlans(map[]) == {};
    hide Trunked, BridgeHead;
  }
}
