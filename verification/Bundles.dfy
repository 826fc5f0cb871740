/** Values for the bundles of a node (src/ofproto-sim-provider.c): what callers ask for, what follows
    from it, the parts of the node's invariant, and how a step on one bundle touches each part.

    `Config` is what callers have asked for; `Desired` and `BridgeTrunks` say what follows from it for
    the ASIC's ports and the bridge's trunk list.  `ConfigSet` and `Asked` say what each call does to it,
    and to the set of ports that are kept from the kernel, which `DropsFollow` ties to the DROP rules. */
module Bundles {
  import opened Wrappers
  import opened PortCommand
  import opened VlanList

  type Aux = nat     // a caller's key for a bundle
  type PortId = nat  // an OpenFlow port number

  /** A port the node can resolve: its network device's name, and whether that is internal. */
  datatype PortInfo = PortInfo(name: string, internal: bool)

  datatype Settings = Settings(name: string, slaves: seq<PortId>, slavesEntered: nat, vlan: int, mode: Mode,
                               trunks: Option<set<int>>, hwBondShouldExist: bool)

  /** `is_vlan_routing_enabled` and `is_bridge_bundle`; an ordinary bundle is L2. */
  datatype Kind = L2 | Routing | BridgeOwn

  datatype Bundle = Bundle(name: string, ports: seq<PortId>, mode: Mode, vlan: int, trunks: Option<set<int>>,
                           added: bool, kind: Kind, bondHandle: int)

  const NO_HANDLE: int := -1
  const BOND_HANDLE: int := 123
  const EINVAL: int := 22

  function NewBundle(name: string): Bundle { Bundle(name, [], Access, -1, None, false, L2, NO_HANDLE) }

  // ---------------------------------------------------------------- the configuration, and what follows from it

  datatype Cfg = Cfg(name: string, kind: Kind, members: set<PortId>, mode: Mode, vlan: int, trunks: Option<set<int>>,
                     bond: bool)

  type Config = map<Aux, Cfg>

  /** Where the bundles are: the bridge's name, or a VRF. */
  datatype Site = Site(bridge: string, vrf: bool)

  function Resolved(slaves: seq<PortId>, known: map<PortId, PortInfo>): set<PortId> {
    set p | p in slaves && p in known
  }

  /** What the settings make of a bundle on this node. */
  function KindAsked(s: Settings, known: map<PortId, PortInfo>, site: Site): Kind {
    if |s.slaves| != 1 || s.slaves[0] !in known || !known[s.slaves[0]].internal || site.vrf then L2
    else if s.name == site.bridge then BridgeOwn
    else if s.vlan != 0 then Routing
    else L2
  }

  function ClampedVlan(vlan: int): int { if 0 < vlan < 4095 then vlan else -1 }

  /** Fewer than two slaves of several entered: the LAG is left as it is for now. */
  predicate Postponed(s: Settings) { s.slavesEntered > 1 && |s.slaves| <= 1 }

  /** How a bundle with its new members takes on the settings. */
  function Adopted(c: Cfg, s: Settings, asked: Kind, site: Site): Cfg {
    if c.kind == BridgeOwn then c
    else if asked == Routing then c.(kind := Routing, vlan := s.vlan)
    else if asked == BridgeOwn then c.(kind := BridgeOwn)
    else if site.vrf || Postponed(s) then c
    else c.(mode := s.mode, vlan := ClampedVlan(s.vlan), trunks := s.trunks)
  }

  function Before(c: Config, aux: Aux, name: string): Cfg {
    if aux in c then c[aux] else Cfg(name, L2, {}, Access, -1, None, false)
  }

  /** The other bundles that hold none of the ports taken. */
  function Others(c: Config, aux: Aux, taken: set<PortId>): Config {
    map a | a in c && a != aux && c[a].members !! taken :: c[a]
  }

  /** The configuration after a bundle is set: bundles that held any of the slaves are gone, and a
      bundle without members does not exist. */
  function ConfigSet(c: Config, aux: Aux, s: Settings, known: map<PortId, PortInfo>, site: Site): Config {
    var taken := Resolved(s.slaves, known);
    var others := Others(c, aux, taken);
    if taken == {} then others
    else
      var was := Before(c, aux, s.name);
      var members := Settled(was.members, s.slaves, known);
      var now := was.(name := s.name, members := members, bond := was.bond || s.hwBondShouldExist);
      others[aux := Adopted(now, s, KindAsked(s, known, site), site)]
  }

  // ---------------------------------------------------------------- the parts of the invariant

  predicate NoDup(ps: seq<PortId>) { forall i, j :: 0 <= i < j < |ps| ==> ps[i] != ps[j] }

  /** Each port is in at most one bundle's list, once, and its back pointer agrees. */
  ghost predicate LinksOk(bundles: map<Aux, Bundle>, owner: map<PortId, Aux>, known: map<PortId, PortInfo>) {
    && (forall a :: a in bundles ==> NoDup(bundles[a].ports))
    && (forall a, p :: a in bundles && p in bundles[a].ports ==> p in known && p in owner && owner[p] == a)
    && (forall p :: p in owner ==> owner[p] in bundles && p in bundles[owner[p]].ports)
  }

  ghost predicate DistinctNames(bundles: map<Aux, Bundle>) {
    forall a, b :: a in bundles && b in bundles && bundles[a].name == bundles[b].name ==> a == b
  }

  /** A bundle named after a port holds that port and no other. */
  ghost predicate NamedAfterPort(b: Bundle, known: map<PortId, PortInfo>) {
    forall p :: p in known && known[p].name == b.name ==> b.ports == [p]
  }

  ghost predicate UniqueDevices(known: map<PortId, PortInfo>) {
    forall p, q :: p in known && q in known && known[p].name == known[q].name ==> p == q
  }

  function On(asic: map<string, AsicPort>, name: string): Option<AsicPort> {
    if name in asic then Some(asic[name]) else None
  }

  /** The command for an ordinary bundle could be printed, and its port is what the ASIC read in it. */
  ghost predicate BundleOnAsic(b: Bundle, asic: map<string, AsicPort>, vlans: set<int>, site: Site) {
    if b.kind == L2 && !site.vrf then
      var port := Desired(b.mode, b.vlan, b.trunks, vlans);
      Fits(site.bridge, b.name, port) && On(asic, b.name) == Told(site.bridge, b.name, port)
    else On(asic, b.name) == None
  }

  /** A bundle's flag agrees with the ASIC and, unless the bundle is out of step, so does its port. */
  ghost predicate Agrees(b: Bundle, asic: map<string, AsicPort>, vlans: set<int>, site: Site, outOfStep: bool) {
    && (b.added <==> b.name in asic)
    && (outOfStep || BundleOnAsic(b, asic, vlans, site))
    && (site.vrf || b.kind != L2 ==> !b.added)
  }

  /** The ASIC has no port without a bundle, the flags agree with it, and, but for the bundles in
      `stale`, it has exactly what each bundle is entitled to. */
  ghost predicate AsicOk(bundles: map<Aux, Bundle>, asic: map<string, AsicPort>, vlans: set<int>, site: Site,
                         stale: set<Aux>)
  {
    && (forall a :: a in bundles ==> Agrees(bundles[a], asic, vlans, site, a in stale))
    && (forall n :: n in asic ==> Named(bundles, n))
  }

  ghost predicate Named(bundles: map<Aux, Bundle>, n: string) { exists a :: a in bundles && bundles[a].name == n }

  /** A port's two DROP rules are both there once if its flag is up, else neither is; and only ports
      in bundles have the flag. */
  ghost predicate DropsOk(known: map<PortId, PortInfo>, owner: map<PortId, Aux>, flagged: set<PortId>,
                          input: multiset<string>, forward: multiset<string>)
  {
    && flagged <= owner.Keys
    && forall p :: p in known ==> input[known[p].name] == forward[known[p].name] == if p in flagged then 1 else 0
  }

  predicate Routes(bundles: map<Aux, Bundle>, a: Aux) { a in bundles && bundles[a].kind == Routing }

  ghost predicate OneRouterEach(bundles: map<Aux, Bundle>) {
    forall a, b :: Routes(bundles, a) && Routes(bundles, b) && bundles[a].vlan == bundles[b].vlan ==> a == b
  }

  /** The bridge's own port has the list it was told, unless it refused that. */
  predicate TrunksFollow(site: Site, routed: set<int>, bridgeTrunks: seq<nat>) {
    var told := BridgeTold(site.bridge, routed);
    told.Some? ==> bridgeTrunks == told.value
  }

  /** The bridge's own port has been told the VLANs of the bitmap in a command that could be printed. */
  predicate TrunksOk(site: Site, routed: set<int>, bridgeTrunks: seq<nat>) {
    BridgeFits(site.bridge, routed) && TrunksFollow(site, routed, bridgeTrunks)
  }

  /** Each routed VLAN belongs to one bundle, and the bitmap agrees. */
  ghost predicate RoutingOk(bundles: map<Aux, Bundle>, routed: set<int>) {
    && (forall a :: Routes(bundles, a) ==> bundles[a].vlan in routed)
    && (forall v :: v in routed ==> 0 <= v < 4096 && RoutedBy(bundles, v))
    && OneRouterEach(bundles)
  }

  ghost predicate RoutedBy(bundles: map<Aux, Bundle>, v: int) { exists a :: Routes(bundles, a) && bundles[a].vlan == v }

  function CfgOf(b: Bundle): Cfg {
    Cfg(b.name, b.kind, (set p | p in b.ports), b.mode, b.vlan, b.trunks, b.bondHandle != NO_HANDLE)
  }

  function ConfigOf(bundles: map<Aux, Bundle>): Config {
    map a | a in bundles :: CfgOf(bundles[a])
  }

  function Without(ps: seq<PortId>, p: PortId): seq<PortId> {
    if ps == [] then [] else if ps[0] == p then ps[1..] else [ps[0]] + Without(ps[1..], p)
  }

  lemma {:induction false} WithoutOne(ps: seq<PortId>, p: PortId)
    requires NoDup(ps)
    ensures NoDup(Without(ps, p))
    ensures forall q :: q in Without(ps, p) <==> q in ps && q != p
    ensures |Without(ps, p)| == |ps| - if p in ps then 1 else 0
  {
    if ps != [] {
      assert ps == [ps[0]] + ps[1..];
      if ps[0] != p {
        WithoutOne(ps[1..], p);
        assert ps[0] !in ps[1..];
        var rest := Without(ps[1..], p);
        forall i, j | 0 <= i < j < |Without(ps, p)| ensures Without(ps, p)[i] != Without(ps, p)[j] {
          assert rest[j - 1] in rest;
        }
      }
    }
  }

  lemma {:induction false} NoMembers(lo: nat, hi: nat)
    requires lo <= hi
    ensures Members({}, lo, hi) == []
    decreases hi - lo
  {
    if lo < hi { NoMembers(lo, hi - 1); }
  }

  lemma NothingTrunked()
    ensures Trunked({}, None) == []
  {
    NoMembers(FIRST_VLAN, END_VLAN);
  }

  lemma LinksDel(bundles: map<Aux, Bundle>, owner: map<PortId, Aux>, known: map<PortId, PortInfo>, p: PortId)
    requires LinksOk(bundles, owner, known) && p in owner
    ensures var a := owner[p];
            LinksOk(bundles[a := bundles[a].(ports := Without(bundles[a].ports, p))], owner - {p}, known)
  {
    var a := owner[p];
    WithoutOne(bundles[a].ports, p);
    hide Without, NoDup;
    LinksWithout(bundles, owner, known, p, Without(bundles[a].ports, p));
  }

  lemma LinksWithout(bundles: map<Aux, Bundle>, owner: map<PortId, Aux>, known: map<PortId, PortInfo>, p: PortId,
                     ps: seq<PortId>)
    requires LinksOk(bundles, owner, known) && p in owner && NoDup(ps)
    requires forall q :: q in ps <==> q in bundles[owner[p]].ports && q != p
    ensures LinksOk(bundles[owner[p] := bundles[owner[p]].(ports := ps)], owner - {p}, known)
  {
    hide NoDup;
    var a := owner[p];
    var next, left := bundles[a := bundles[a].(ports := ps)], owner - {p};
    forall c, q | c in next && q in next[c].ports ensures q in known && q in left && left[q] == c {
      assert c in bundles && q in bundles[c].ports;
    }
    forall q | q in left ensures left[q] in next && q in next[left[q]].ports {
      assert q in owner && q in bundles[owner[q]].ports;
    }
  }

  // ---------------------------------------------------------------- sizes of port lists

  function PortSet(ps: seq<PortId>): set<PortId> { set p | p in ps }

  lemma {:induction false} PortSetSize(ps: seq<PortId>)
    ensures |PortSet(ps)| <= |ps|
    ensures NoDup(ps) ==> |PortSet(ps)| == |ps|
  {
    if ps != [] {
      PortSetSize(ps[1..]);
      assert PortSet(ps) == {ps[0]} + PortSet(ps[1..]);
      if NoDup(ps) { assert ps[0] !in ps[1..]; }
    }
  }

  lemma SubsetSize<T>(a: set<T>, b: set<T>)
    requires a <= b
    ensures |a| <= |b|
    ensures |a| == |b| ==> a == b
  {
    assert b == a + (b - a);
  }

  /** The members a bundle ends up with: `bundle_set` compares sizes first, and only prunes the list
      if a slave did not resolve or the sizes differ. */
  function Settled(was: set<PortId>, slaves: seq<PortId>, known: map<PortId, PortInfo>): set<PortId> {
    var r := Resolved(slaves, known);
    if Spared(was, slaves, known) then was + r else r
  }

  predicate Spared(was: set<PortId>, slaves: seq<PortId>, known: map<PortId, PortInfo>) {
    AllKnown(slaves, known) && |was + Resolved(slaves, known)| == |slaves|
  }

  /** The size comparison is enough exactly when the list is pruned or keeps nothing it should not. */
  lemma SettledRightIff(was: set<PortId>, slaves: seq<PortId>, known: map<PortId, PortInfo>)
    ensures Settled(was, slaves, known) == Resolved(slaves, known) <==>
            !Spared(was, slaves, known) || |Resolved(slaves, known)| == |slaves|
  {
    var r := Resolved(slaves, known);
    PortSetSize(slaves);
    if Spared(was, slaves, known) {
      SubsetSize(r, was + r);
      if was + r == r { assert |was + r| == |r|; }
    }
  }

  /** Distinct slaves leave no room for a leftover: the pruning loop is only skipped when it would do nothing. */
  lemma DistinctSlavesSettle(was: set<PortId>, slaves: seq<PortId>, known: map<PortId, PortInfo>)
    requires NoDup(slaves)
    ensures Settled(was, slaves, known) == Resolved(slaves, known)
  {
    SettledRightIff(was, slaves, known);
    PortSetSize(slaves);
    if Spared(was, slaves, known) { assert Resolved(slaves, known) == PortSet(slaves); }
  }

  /** A slave named twice hides a port that should have left. */
  lemma RepeatedSlaveKeepsLeftover(p: PortId, q: PortId, known: map<PortId, PortInfo>)
    requires p in known && q in known && p != q
    ensures Settled({q}, [p, p], known) == {p, q} && Resolved([p, p], known) == {p}
  {
    assert Resolved([p, p], known) == {p};
    assert {q} + {p} == {p, q} && |{p, q}| == 2;
  }

  // ---------------------------------------------------------------- how a step on one bundle touches each part

  lemma DistinctDel(bundles: map<Aux, Bundle>, a: Aux)
    requires DistinctNames(bundles)
    ensures DistinctNames(bundles - {a})
  {}

  /** The back pointers to every bundle but one. */
  function Disowned(owner: map<PortId, Aux>, a: Aux): map<PortId, Aux> {
    map p | p in owner && owner[p] != a :: owner[p]
  }

  /** The flags of the ports whose bundle is the same in two tables of back pointers. */
  function Staying(flagged: set<PortId>, was: map<PortId, Aux>, now: map<PortId, Aux>): set<PortId> {
    set p | p in flagged && p in was && p in now && now[p] == was[p]
  }

  /** The back pointers once a port has joined a bundle, and its old bundle is gone. */
  function MovedTo(owner: map<PortId, Aux>, a: Aux, p: PortId): map<PortId, Aux> {
    if p in owner && owner[p] == a then owner
    else (if p in owner then Disowned(owner, owner[p]) else owner)[p := a]
  }

  /** Ports have only left other bundles, for none or for bundle `a`. */
  ghost predicate MovesTo(was: map<PortId, Aux>, now: map<PortId, Aux>, a: Aux) {
    forall p :: p in was && !(p in now && now[p] == was[p]) ==> was[p] != a && (p in now ==> now[p] == a)
  }

  /** Ports have only left bundles. */
  ghost predicate Leaves(was: map<PortId, Aux>, now: map<PortId, Aux>) {
    forall p :: p in now ==> p in was && now[p] == was[p]
  }

  lemma MovedOn(flagged: set<PortId>, was: map<PortId, Aux>, now: map<PortId, Aux>, a: Aux, p: PortId)
    requires MovesTo(was, now, a)
    ensures MovesTo(was, MovedTo(now, a, p), a)
    ensures Staying(Staying(flagged, was, now), now, MovedTo(now, a, p)) == Staying(flagged, was, MovedTo(now, a, p))
    ensures Staying(Staying(flagged, was, now), now, now) == Staying(flagged, was, now)
  {}

  lemma LeftOn(flagged: set<PortId>, was: map<PortId, Aux>, now: map<PortId, Aux>, last: map<PortId, Aux>)
    requires Leaves(now, last)
    ensures Staying(Staying(flagged, was, now), now, last) == Staying(flagged, was, last)
    ensures Leaves(was, now) ==> Leaves(was, last)
  {}

  lemma OneLeft(flagged: set<PortId>, owner: map<PortId, Aux>, p: PortId)
    requires flagged <= owner.Keys
    ensures Leaves(owner, owner - {p}) && Staying(flagged, owner, owner - {p}) == flagged - {p}
    ensures Staying(flagged, owner, owner) == flagged
  {}

  lemma NoneLeft(flagged: set<PortId>, owner: map<PortId, Aux>)
    requires flagged <= owner.Keys
    ensures Leaves(owner, owner) && Staying(flagged, owner, owner) == flagged
  {}

  lemma NoneMoved(owner: map<PortId, Aux>, a: Aux)
    ensures MovesTo(owner, owner, a)
  {}

  lemma LeftBy(flagged: set<PortId>, was: map<PortId, Aux>, now: map<PortId, Aux>, a: Aux)
    ensures Staying(Staying(flagged, was, now), now, Disowned(now, a)) == Staying(flagged, was, Disowned(now, a))
  {}

  /** A port's old bundle goes before the port joins the new one. */
  lemma JoinedOwner(flagged: set<PortId>, owner: map<PortId, Aux>, a: Aux, p: PortId)
    requires flagged <= owner.Keys
    ensures var left := if p in owner && owner[p] != a then Disowned(owner, owner[p]) else owner;
            (p in owner ==> owner[p] != a) ==>
              && MovedTo(owner, a, p) == left[p := a]
              && Staying(flagged, owner, left) == Staying(flagged, owner, left[p := a])
  {}

  lemma FirstPort(bundles: map<Aux, Bundle>, owner: map<PortId, Aux>, known: map<PortId, PortInfo>, a: Aux)
    requires LinksOk(bundles, owner, known) && a in bundles && bundles[a].ports != []
    ensures var ps := bundles[a].ports;
            && ps[0] in owner && owner[ps[0]] == a && |Without(ps, ps[0])| < |ps|
            && Disowned(owner - {ps[0]}, a) == Disowned(owner, a)
  {
    assert bundles[a].ports[0] in bundles[a].ports;
  }

  lemma LastPortGone(bundles: map<Aux, Bundle>, owner: map<PortId, Aux>, known: map<PortId, PortInfo>, a: Aux)
    requires LinksOk(bundles, owner, known) && a in bundles && bundles[a].ports == []
    ensures LinksOk(bundles - {a}, owner, known) && owner == Disowned(owner, a)
  {}

  /** Links only look at the port lists. */
  lemma LinksFace(bundles: map<Aux, Bundle>, owner: map<PortId, Aux>, known: map<PortId, PortInfo>, a: Aux, b: Bundle)
    requires LinksOk(bundles, owner, known) && (if a in bundles then b.ports == bundles[a].ports else b.ports == [])
    ensures LinksOk(bundles[a := b], owner, known)
  {}

  lemma LinksAdd(bundles: map<Aux, Bundle>, owner: map<PortId, Aux>, known: map<PortId, PortInfo>, a: Aux, p: PortId)
    requires LinksOk(bundles, owner, known) && a in bundles && p in known && p !in owner
    ensures LinksOk(bundles[a := bundles[a].(ports := bundles[a].ports + [p])], owner[p := a], known)
  {
    assert p !in bundles[a].ports;
  }

  lemma NamedPut(bundles: map<Aux, Bundle>, a: Aux, b: Bundle)
    ensures forall n :: Named(bundles, n) && (a in bundles && bundles[a].name == n ==> b.name == n) ==>
              Named(bundles[a := b], n)
  {
    var next := bundles[a := b];
    forall n | Named(bundles, n) && (a in bundles && bundles[a].name == n ==> b.name == n) ensures Named(next, n) {
      var c :| c in bundles && bundles[c].name == n;
      assert c in next && next[c].name == n;
    }
  }

  lemma NamedDel(bundles: map<Aux, Bundle>, a: Aux)
    requires a in bundles
    ensures forall n :: Named(bundles, n) && n != bundles[a].name ==> Named(bundles - {a}, n)
  {
    var rest := bundles - {a};
    forall n | Named(bundles, n) && n != bundles[a].name ensures Named(rest, n) {
      var c :| c in bundles && bundles[c].name == n;
      assert c in rest && rest[c].name == n;
    }
  }

  lemma AsicDel(bundles: map<Aux, Bundle>, asic: map<string, AsicPort>, vlans: set<int>, site: Site, stale: set<Aux>,
                a: Aux)
    requires AsicOk(bundles, asic, vlans, site, stale) && DistinctNames(bundles) && a in bundles
    ensures var asic' := if bundles[a].added then asic - {bundles[a].name} else asic;
            AsicOk(bundles - {a}, asic', vlans, site, stale)
  {
    hide Named, Desired, Told, Fits, DistinctNames;
    NamedDel(bundles, a);
    NameOnly(bundles, a);
  }

  lemma NameThere(bundles: map<Aux, Bundle>, a: Aux)
    requires a in bundles
    ensures Named(bundles, bundles[a].name)
  {}

  lemma UnusedName(bundles: map<Aux, Bundle>, asic: map<string, AsicPort>, n: string, a: Aux)
    requires forall m :: m in asic ==> Named(bundles, m)
    requires forall c :: c in bundles && c != a ==> bundles[c].name != n
    ensures n in asic ==> a in bundles && bundles[a].name == n
  {}

  /** A name no other bundle bears, and what a bundle may change without touching the ASIC. */
  predicate Refaced(bundles: map<Aux, Bundle>, vlans: set<int>, site: Site, a: Aux, b: Bundle) {
    && (forall c :: c in bundles && c != a ==> bundles[c].name != b.name)
    && if a !in bundles then !b.added && b.kind == L2 && Desired(b.mode, b.vlan, b.trunks, vlans) == None
       else
         && b.added == bundles[a].added && b.kind == bundles[a].kind
         && (b.added || (b.kind == L2 && !site.vrf && Desired(b.mode, b.vlan, b.trunks, vlans).Some?) ==>
             b.name == bundles[a].name)
         && b.mode == bundles[a].mode && b.vlan == bundles[a].vlan && b.trunks == bundles[a].trunks
  }

  /** A bundle without a command. */
  lemma NoCommand(site: Site, name: string)
    ensures Fits(site.bridge, name, None) && Told(site.bridge, name, None) == None
  {}

  lemma FaceAgrees(bundles: map<Aux, Bundle>, asic: map<string, AsicPort>, vlans: set<int>, site: Site, a: Aux,
                   b: Bundle)
    requires (a in bundles ==> Agrees(bundles[a], asic, vlans, site, false)) && Refaced(bundles, vlans, site, a, b)
    requires b.name in asic ==> a in bundles && bundles[a].name == b.name
    ensures Agrees(b, asic, vlans, site, false)
  {
    NoCommand(site, b.name);
    hide Desired, Told, Fits;
  }

  lemma AsicFace(bundles: map<Aux, Bundle>, asic: map<string, AsicPort>, vlans: set<int>, site: Site, a: Aux, b: Bundle)
    requires AsicOk(bundles, asic, vlans, site, {}) && Refaced(bundles, vlans, site, a, b)
    ensures AsicOk(bundles[a := b], asic, vlans, site, {})
  {
    hide Desired, Told, Fits, Agrees, Named;
    NamedPut(bundles, a, b);
    UnusedName(bundles, asic, b.name, a);
    assert a in bundles ==> Agrees(bundles[a], asic, vlans, site, a in {});
    FaceAgrees(bundles, asic, vlans, site, a, b);
    var next := bundles[a := b];
    forall c | c in next ensures Agrees(next[c], asic, vlans, site, c in {}) {
      assert c != a ==> Agrees(bundles[c], asic, vlans, site, c in {});
    }
    assert a in bundles && bundles[a].name in asic ==> b.name == bundles[a].name by {
      if a in bundles { AddedOnAsic(bundles[a], asic, vlans, site); }
    }
    hide Refaced;
  }

  lemma AddedOnAsic(b: Bundle, asic: map<string, AsicPort>, vlans: set<int>, site: Site)
    requires Agrees(b, asic, vlans, site, false)
    ensures b.added <==> b.name in asic
  {}

  lemma FacePut(bundles: map<Aux, Bundle>, asic: map<string, AsicPort>, vlans: set<int>, site: Site, routed: set<int>,
                a: Aux, b: Bundle)
    requires DistinctNames(bundles) && AsicOk(bundles, asic, vlans, site, {}) && RoutingOk(bundles, routed)
    requires Refaced(bundles, vlans, site, a, b)
    ensures DistinctNames(bundles[a := b]) && AsicOk(bundles[a := b], asic, vlans, site, {})
    ensures RoutingOk(bundles[a := b], routed)
  {
    AsicFace(bundles, asic, vlans, site, a, b);
    NamesPut(bundles, a, b);
    hide Desired, Told, Fits, RoutingOk, DistinctNames, AsicOk;
    RoutingPut(bundles, routed, a, b);
  }

  /** A bundle with other ports. */
  lemma PortsRefaced(bundles: map<Aux, Bundle>, vlans: set<int>, site: Site, a: Aux, ps: seq<PortId>)
    requires DistinctNames(bundles) && a in bundles
    ensures Refaced(bundles, vlans, site, a, bundles[a].(ports := ps))
  {
    NameOnly(bundles, a);
  }

  /** A bundle counts as routing a VLAN after the update just as it did before. */
  lemma RoutedPut(bundles: map<Aux, Bundle>, a: Aux, b: Bundle)
    requires Routes(bundles, a) ==> b.kind == Routing && b.vlan == bundles[a].vlan
    ensures forall v :: RoutedBy(bundles, v) ==> RoutedBy(bundles[a := b], v)
  {
    var next := bundles[a := b];
    forall v | RoutedBy(bundles, v) ensures RoutedBy(next, v) {
      var c :| Routes(bundles, c) && bundles[c].vlan == v;
      assert Routes(next, c) && next[c].vlan == v;
    }
  }

  lemma RoutedDel(bundles: map<Aux, Bundle>, a: Aux)
    ensures forall v :: RoutedBy(bundles, v) && (Routes(bundles, a) ==> v != bundles[a].vlan) ==>
              RoutedBy(bundles - {a}, v)
  {
    var rest := bundles - {a};
    forall v | RoutedBy(bundles, v) && (Routes(bundles, a) ==> v != bundles[a].vlan) ensures RoutedBy(rest, v) {
      var c :| Routes(bundles, c) && bundles[c].vlan == v;
      assert Routes(rest, c) && rest[c].vlan == v;
    }
  }

  lemma OneRouterPut(bundles: map<Aux, Bundle>, a: Aux, b: Bundle)
    requires OneRouterEach(bundles)
    requires b.kind == Routing ==> forall c :: Routes(bundles, c) && c != a ==> bundles[c].vlan != b.vlan
    ensures OneRouterEach(bundles[a := b])
  {
    var next := bundles[a := b];
    forall c, d | Routes(next, c) && Routes(next, d) && next[c].vlan == next[d].vlan ensures c == d {
      if c == a { assert d == a || Routes(bundles, d); }
      else if d == a { assert Routes(bundles, c); }
      else { assert Routes(bundles, c) && Routes(bundles, d); }
    }
  }

  lemma OneRouterDel(bundles: map<Aux, Bundle>, a: Aux)
    requires OneRouterEach(bundles)
    ensures OneRouterEach(bundles - {a})
  {
    var rest := bundles - {a};
    forall c, d | Routes(rest, c) && Routes(rest, d) && rest[c].vlan == rest[d].vlan ensures c == d {
      assert Routes(bundles, c) && Routes(bundles, d);
    }
  }

  lemma OneRouterOnly(bundles: map<Aux, Bundle>, a: Aux)
    requires OneRouterEach(bundles) && Routes(bundles, a)
    ensures forall c :: Routes(bundles, c) && c != a ==> bundles[c].vlan != bundles[a].vlan
  {}

  lemma NamesPut(bundles: map<Aux, Bundle>, a: Aux, b: Bundle)
    requires DistinctNames(bundles) && forall c :: c in bundles && c != a ==> bundles[c].name != b.name
    ensures DistinctNames(bundles[a := b])
  {
    var next := bundles[a := b];
    forall c, d | c in next && d in next && next[c].name == next[d].name ensures c == d {
      if c == a { assert d == a || d in bundles; }
    }
  }

  lemma NameOnly(bundles: map<Aux, Bundle>, a: Aux)
    requires DistinctNames(bundles) && a in bundles
    ensures forall c :: c in bundles && c != a ==> bundles[c].name != bundles[a].name
  {}

  lemma RoutingPut(bundles: map<Aux, Bundle>, routed: set<int>, a: Aux, b: Bundle)
    requires RoutingOk(bundles, routed)
    requires (b.kind == Routing) == Routes(bundles, a) && (b.kind == Routing ==> b.vlan == bundles[a].vlan)
    ensures RoutingOk(bundles[a := b], routed)
  {
    hide RoutedBy, OneRouterEach;
    RoutedPut(bundles, a, b);
    if Routes(bundles, a) { OneRouterOnly(bundles, a); }
    OneRouterPut(bundles, a, b);
    var next := bundles[a := b];
    assert forall c :: Routes(next, c) == Routes(bundles, c);
  }

  lemma RoutingDel(bundles: map<Aux, Bundle>, routed: set<int>, a: Aux)
    requires RoutingOk(bundles, routed) && a in bundles
    ensures bundles[a].kind == Routing ==>
              && 0 <= bundles[a].vlan < 4096
              && RoutingOk(bundles - {a}, routed - {bundles[a].vlan})
    ensures bundles[a].kind != Routing ==> RoutingOk(bundles - {a}, routed)
  {
    hide RoutedBy, OneRouterEach;
    RoutedDel(bundles, a);
    OneRouterDel(bundles, a);
    if Routes(bundles, a) { OneRouterOnly(bundles, a); }
    var rest := bundles - {a};
    forall c | Routes(rest, c) ensures Routes(bundles, c) {}
    if bundles[a].kind == Routing { assert Routes(bundles, a); }
  }

  lemma RoutingAdd(bundles: map<Aux, Bundle>, routed: set<int>, a: Aux, vlan: int)
    requires RoutingOk(bundles, routed) && a in bundles && 0 <= vlan < 4096
    requires bundles[a].kind == Routing ==> bundles[a].vlan == vlan
    requires forall c :: Routes(bundles, c) && c != a ==> bundles[c].vlan != vlan
    ensures RoutingOk(bundles[a := bundles[a].(kind := Routing, vlan := vlan)], routed + {vlan})
  {
    var next := bundles[a := bundles[a].(kind := Routing, vlan := vlan)];
    RoutedPut(bundles, a, next[a]);
    OneRouterPut(bundles, a, next[a]);
    assert RoutedBy(next, vlan) by { assert Routes(next, a); }
    hide RoutedBy, OneRouterEach;
    assert forall c :: Routes(next, c) <==> Routes(bundles, c) || c == a;
  }

  /** A bundle that is not on the ASIC may become one that never is. */
  lemma AsicLeaves(bundles: map<Aux, Bundle>, asic: map<string, AsicPort>, vlans: set<int>, site: Site, a: Aux,
                   b: Bundle)
    requires AsicOk(bundles, asic, vlans, site, {}) && DistinctNames(bundles) && a in bundles
    requires !bundles[a].added && !b.added && b.name == bundles[a].name && b.kind != L2
    ensures AsicOk(bundles[a := b], asic, vlans, site, {}) && DistinctNames(bundles[a := b])
  {
    NamedPut(bundles, a, b);
    NameOnly(bundles, a);
    NamesPut(bundles, a, b);
    hide Desired, Told, Fits, Named, DistinctNames;
  }

  /** New settings leave only their own bundle out of step with the ASIC. */
  lemma AsicRestyled(bundles: map<Aux, Bundle>, asic: map<string, AsicPort>, vlans: set<int>, site: Site,
                     stale: set<Aux>,
                     a: Aux, b: Bundle)
    requires AsicOk(bundles, asic, vlans, site, stale) && DistinctNames(bundles) && a in bundles
    requires b.added == bundles[a].added && b.name == bundles[a].name && b.kind == bundles[a].kind
    ensures AsicOk(bundles[a := b], asic, vlans, site, stale + {a}) && DistinctNames(bundles[a := b])
  {
    NamedPut(bundles, a, b);
    NameOnly(bundles, a);
    NamesPut(bundles, a, b);
    hide Desired, Told, Fits, Named, DistinctNames;
  }

  function WithAdded(bundles: map<Aux, Bundle>, a: Aux, added: bool): map<Aux, Bundle>
    requires a in bundles
  {
    bundles[a := bundles[a].(added := added)]
  }

  /** The ASIC with a port added, if there is one. */
  function AsicWith(asic: map<string, AsicPort>, n: string, port: Option<AsicPort>): map<string, AsicPort> {
    if port.Some? then asic[n := port.value] else asic
  }

  lemma AddedAgain(bundles: map<Aux, Bundle>, a: Aux, x: bool, y: bool)
    requires a in bundles
    ensures a in WithAdded(bundles, a, x) && WithAdded(bundles, a, x)[a] == bundles[a].(added := x)
    ensures WithAdded(WithAdded(bundles, a, x), a, y) == WithAdded(bundles, a, y)
  {}

  /** Programming a bundle afresh brings it in step and leaves the others alone. */
  lemma AsicProgrammed(bundles: map<Aux, Bundle>, asic: map<string, AsicPort>, vlans: set<int>, site: Site,
                       stale: set<Aux>, a: Aux,
                       port: Option<AsicPort>)
    requires AsicOk(bundles, asic, vlans, site, stale) && DistinctNames(bundles) && a in bundles
             && bundles[a].kind == L2
    requires var wish := Desired(bundles[a].mode, bundles[a].vlan, bundles[a].trunks, vlans);
             if site.vrf then port == None
             else Fits(site.bridge, bundles[a].name, wish) && port == Told(site.bridge, bundles[a].name, wish)
    ensures var next := WithAdded(bundles, a, port.Some?);
            AsicOk(next, AsicWith(asic - {bundles[a].name}, bundles[a].name, port), vlans, site, stale - {a})
              && DistinctNames(next)
  {
    hide Desired, Told, Fits, Named, DistinctNames, Agrees;
    var b := bundles[a].(added := port.Some?);
    var n, next := b.name, bundles[a := b];
    var asic' := AsicWith(asic - {n}, n, port);
    NamedPut(bundles, a, b);
    NameThere(bundles, a);
    NameOnly(bundles, a);
    NamesPut(bundles, a, b);
    ProgrammedAgrees(b, asic, vlans, site, port, bundles[a].added, a in stale);
    forall c | c in next && c != a ensures Agrees(next[c], asic', vlans, site, c in stale - {a}) {
      AgreesElsewhere(bundles[c], asic, asic', vlans, site, c in stale, n);
    }
  }

  lemma ProgrammedAgrees(b: Bundle, asic: map<string, AsicPort>, vlans: set<int>, site: Site, port: Option<AsicPort>,
                         was: bool, outOfStep: bool)
    requires Agrees(b.(added := was), asic, vlans, site, outOfStep) && b.kind == L2 && b.added == port.Some?
    requires var wish := Desired(b.mode, b.vlan, b.trunks, vlans);
             if site.vrf then port == None
               else Fits(site.bridge, b.name, wish) && port == Told(site.bridge, b.name, wish)
    ensures Agrees(b, AsicWith(asic - {b.name}, b.name, port), vlans, site, false)
  {
    hide Desired, Told, Fits;
  }

  /** A bundle does not see what happens to the ASIC under another name. */
  lemma AgreesElsewhere(b: Bundle, asic: map<string, AsicPort>, asic': map<string, AsicPort>, vlans: set<int>,
                        site: Site,
                        outOfStep: bool, n: string)
    requires Agrees(b, asic, vlans, site, outOfStep) && b.name != n && asic' - {n} == asic - {n}
    ensures Agrees(b, asic', vlans, site, outOfStep)
  {
    hide Desired, Told, Fits;
    assert b.name in asic' <==> b.name in asic' - {n};
    assert b.name in asic <==> b.name in asic - {n};
    if b.name in asic { assert asic[b.name] == (asic - {n})[b.name]; }
    if b.name in asic' { assert asic'[b.name] == (asic' - {n})[b.name]; }
  }

  /** Changing the VLANs puts only ordinary bundles out of step. */
  lemma AsicVlans(bundles: map<Aux, Bundle>, asic: map<string, AsicPort>, vlans: set<int>, vlans': set<int>, site: Site)
    requires AsicOk(bundles, asic, vlans, site, {})
    ensures AsicOk(bundles, asic, vlans', site, if site.vrf then {} else Ordinary(bundles))
  {
    hide Desired, Told, Fits;
  }

  function Ordinary(bundles: map<Aux, Bundle>): set<Aux> { set a | a in bundles && bundles[a].kind == L2 }

  /** A bundle with members, named after a port only if that is its one member, with a name that is not
      too long and, if it is an ordinary bundle, a VLAN below 4095. */
  ghost predicate Shaped(b: Bundle, known: map<PortId, PortInfo>) {
    b.ports != [] && NamedAfterPort(b, known) && |b.name| < NAME_LIMIT && (b.kind == L2 ==> b.vlan < END_VLAN)
  }

  ghost predicate Shapely(bundles: map<Aux, Bundle>, known: map<PortId, PortInfo>) {
    forall a :: a in bundles ==> Shaped(bundles[a], known)
  }

  lemma OnlyMember(bundles: map<Aux, Bundle>, owner: map<PortId, Aux>, known: map<PortId, PortInfo>, a: Aux, c: Aux,
                   p: PortId)
    requires LinksOk(bundles, owner, known) && a in bundles && c in bundles && p in bundles[a].ports
    requires NamedAfterPort(bundles[c], known) && bundles[c].name == known[p].name
    ensures bundles[a].ports == [p]
  {
    assert p in known && bundles[c].ports == [p];
    assert p in bundles[c].ports && owner[p] == c && owner[p] == a;
  }

  /** No member of a bundle of several has an ASIC port of its own, so deleting those does nothing. */
  lemma MembersNotOnAsic(bundles: map<Aux, Bundle>, owner: map<PortId, Aux>, known: map<PortId, PortInfo>,
                         asic: map<string, AsicPort>, vlans: set<int>, site: Site, stale: set<Aux>, a: Aux, p: PortId)
    requires LinksOk(bundles, owner, known) && AsicOk(bundles, asic, vlans, site, stale) && Shapely(bundles, known)
    requires a in bundles && |bundles[a].ports| > 1 && p in bundles[a].ports
    ensures known[p].name !in asic
  {
    hide Desired, Told, Fits;
    if known[p].name in asic {
      assert Named(bundles, known[p].name);
      var c :| c in bundles && bundles[c].name == known[p].name;
      assert Shaped(bundles[c], known);
      OnlyMember(bundles, owner, known, a, c, p);
    }
  }

  /** Taking a port out of its bundle takes its DROP rules away with the flag. */
  lemma DropsDel(known: map<PortId, PortInfo>, owner: map<PortId, Aux>, flagged: set<PortId>, input: multiset<string>,
                 forward: multiset<string>, p: PortId)
    requires DropsOk(known, owner, flagged, input, forward) && p in known
    requires UniqueDevices(known)
    ensures p !in flagged ==> DropsOk(known, owner - {p}, flagged, input, forward)
    ensures p in flagged ==>
              DropsOk(known, owner - {p}, flagged - {p}, input - multiset{known[p].name},
                      forward - multiset{known[p].name})
  {}

  lemma FlaggedOwned(known: map<PortId, PortInfo>, owner: map<PortId, Aux>, flagged: set<PortId>,
                     input: multiset<string>,
                     forward: multiset<string>)
    requires DropsOk(known, owner, flagged, input, forward)
    ensures flagged <= owner.Keys
  {}

  lemma DropsAdd(known: map<PortId, PortInfo>, owner: map<PortId, Aux>, flagged: set<PortId>, input: multiset<string>,
                 forward: multiset<string>, p: PortId)
    requires DropsOk(known, owner, flagged, input, forward) && p in known && p in owner && p !in flagged
    requires UniqueDevices(known)
    ensures known[p].name !in input
    ensures DropsOk(known, owner, flagged + {p}, input + multiset{known[p].name}, forward + multiset{known[p].name})
  {
    assert input[known[p].name] == 0;
  }

  // ---------------------------------------------------------------- what gathering members does to the bundles

  /** From `was` to `now` bundle `a` took the ports `taken`, their other bundles are gone, and its
      list holds exactly `members`. */
  ghost predicate Gathered(was: map<Aux, Bundle>, now: map<Aux, Bundle>, a: Aux, taken: set<PortId>,
                           members: set<PortId>)
  {
    && a in was && a in now
    && (forall c :: c in now <==> c in was && (c == a || PortSet(was[c].ports) !! taken))
    && (forall c :: c in now && c != a ==> now[c] == was[c])
    && now[a] == was[a].(ports := now[a].ports)
    && PortSet(now[a].ports) == members
  }

  function Joined(bundles: map<Aux, Bundle>, owner: map<PortId, Aux>, a: Aux, p: PortId): map<Aux, Bundle>
    requires a in bundles
  {
    if p in owner && owner[p] == a then bundles
    else (if p in owner then bundles - {owner[p]} else bundles)[a := bundles[a].(ports := bundles[a].ports + [p])]
  }

  lemma GatherStep(was: map<Aux, Bundle>, bundles: map<Aux, Bundle>, owner: map<PortId, Aux>,
                   known: map<PortId, PortInfo>,
                   a: Aux, taken: set<PortId>, members: set<PortId>, p: PortId)
    requires LinksOk(bundles, owner, known) && Gathered(was, bundles, a, taken, members)
    ensures Gathered(was, Joined(bundles, owner, a, p), a, taken + {p}, members + {p})
  {
    var next := Joined(bundles, owner, a, p);
    assert PortSet(next[a].ports) == members + {p};
    forall c ensures c in next <==> c in was && (c == a || PortSet(was[c].ports) !! taken + {p}) {
      if c in bundles && c != a {
        assert p in PortSet(was[c].ports) <==> p in owner && owner[p] == c;
      }
    }
  }

  /** After the first `i` slaves have been added. */
  ghost predicate GatheredUpTo(was: map<Aux, Bundle>, now: map<Aux, Bundle>, known: map<PortId, PortInfo>, a: Aux,
                               slaves: seq<PortId>, i: nat)
  {
    i <= |slaves| && a in was &&
    var r := Resolved(slaves[..i], known);
    Gathered(was, now, a, r, PortSet(was[a].ports) + r)
  }

  predicate AllKnown(slaves: seq<PortId>, known: map<PortId, PortInfo>) { forall p :: p in slaves ==> p in known }

  lemma GatherBegins(was: map<Aux, Bundle>, known: map<PortId, PortInfo>, a: Aux, slaves: seq<PortId>)
    requires a in was
    ensures GatheredUpTo(was, was, known, a, slaves, 0) && AllKnown(slaves[..0], known)
  {
    assert Resolved(slaves[..0], known) == {};
  }

  lemma GatherOne(was: map<Aux, Bundle>, bundles: map<Aux, Bundle>, owner: map<PortId, Aux>,
                  known: map<PortId, PortInfo>,
                  a: Aux, slaves: seq<PortId>, i: nat)
    requires i < |slaves| && a in bundles && LinksOk(bundles, owner, known)
    requires GatheredUpTo(was, bundles, known, a, slaves, i)
    ensures GatheredUpTo(was, if slaves[i] in known then Joined(bundles, owner, a, slaves[i])
                         else bundles, known, a, slaves, i + 1)
    ensures AllKnown(slaves[..i + 1], known) <==> AllKnown(slaves[..i], known) && slaves[i] in known
  {
    var r, held, p := Resolved(slaves[..i], known), PortSet(was[a].ports), slaves[i];
    assert slaves[..i + 1] == slaves[..i] + [p];
    assert Resolved(slaves[..i + 1], known) == r + if p in known then {p} else {};
    hide Gathered, Joined, LinksOk, Resolved;
    if p in known {
      GatherStep(was, bundles, owner, known, a, r, held + r, p);
      assert held + r + {p} == held + (r + {p});
    } else {
      assert r + {} == r;
    }
  }

  lemma GatherEnds(was: map<Aux, Bundle>, now: map<Aux, Bundle>, known: map<PortId, PortInfo>, a: Aux,
                   slaves: seq<PortId>)
    requires GatheredUpTo(was, now, known, a, slaves, |slaves|)
    ensures var r := Resolved(slaves, known);
            && a in was && a in now && Gathered(was, now, a, r, PortSet(was[a].ports) + r)
            && PortSet(now[a].ports) == PortSet(was[a].ports) + r
    ensures AllKnown(slaves[..|slaves|], known) == AllKnown(slaves, known)
  {
    assert slaves[..|slaves|] == slaves;
  }

  /** Every other bundle that holds one of the slaves is not a LAG. */
  predicate Takeable(bundles: map<Aux, Bundle>, a: Aux, slaves: seq<PortId>) {
    forall c, p :: c in bundles && c != a && p in slaves && p in bundles[c].ports ==> bundles[c].bondHandle == NO_HANDLE
  }

  /** Does taking a port out of its bundle take the bundle with it? */
  predicate Frees(bundles: map<Aux, Bundle>, owner: map<PortId, Aux>, p: PortId) {
    p in owner && owner[p] in bundles && bundles[owner[p]].bondHandle == NO_HANDLE
  }

  lemma OwnerThere(bundles: map<Aux, Bundle>, owner: map<PortId, Aux>, known: map<PortId, PortInfo>, p: PortId)
    requires LinksOk(bundles, owner, known) && p in owner
    ensures owner[p] in bundles && p in known && p in bundles[owner[p]].ports
  {}

  lemma SlaveTakeable(bundles: map<Aux, Bundle>, owner: map<PortId, Aux>, known: map<PortId, PortInfo>, a: Aux,
                      slaves: seq<PortId>, p: PortId)
    requires LinksOk(bundles, owner, known) && Takeable(bundles, a, slaves) && p in slaves && p in owner
             && owner[p] != a
    ensures Frees(bundles, owner, p)
  {}

  lemma StillTakeable(was: map<Aux, Bundle>, bundles: map<Aux, Bundle>, known: map<PortId, PortInfo>, a: Aux,
                      slaves: seq<PortId>, i: nat)
    requires Takeable(was, a, slaves) && GatheredUpTo(was, bundles, known, a, slaves, i)
    ensures Takeable(bundles, a, slaves)
  {}

  /** `now` is what is left of the list `ps` once its first `j` ports have been checked against the slaves. */
  ghost predicate Pruned(ps: seq<PortId>, slaves: seq<PortId>, j: nat, now: seq<PortId>) {
    j <= |ps| && NoDup(ps) && NoDup(now) && forall p :: p in now <==> p in ps && (p in slaves || p in ps[j..])
  }

  lemma PruneStep(ps: seq<PortId>, slaves: seq<PortId>, j: nat, now: seq<PortId>)
    requires j < |ps| && Pruned(ps, slaves, j, now)
    ensures ps[j] in now && Pruned(ps, slaves, j + 1, if ps[j] in slaves then now else Without(now, ps[j]))
  {
    WithoutOne(now, ps[j]);
    assert ps[j..] == [ps[j]] + ps[j + 1..];
    assert ps[j] !in ps[j + 1..];
  }

  lemma PruneBegins(ps: seq<PortId>, slaves: seq<PortId>)
    requires NoDup(ps)
    ensures Pruned(ps, slaves, 0, ps)
  {}

  lemma PutTwice(bundles: map<Aux, Bundle>, a: Aux, b: Bundle, c: Bundle)
    requires a in bundles
    ensures bundles[a := b][a := c] == bundles[a := c] && bundles[a := bundles[a]] == bundles
    ensures bundles[a := b] - {a} == bundles - {a}
  {}

  lemma DropsWider(known: map<PortId, PortInfo>, owner: map<PortId, Aux>, flagged: set<PortId>, input: multiset<string>,
                   forward: multiset<string>, a: Aux, p: PortId)
    requires DropsOk(known, owner, flagged, input, forward)
    ensures DropsOk(known, owner[p := a], flagged, input, forward)
  {}

  lemma GatherPruned(was: map<Aux, Bundle>, gathered: map<Aux, Bundle>, now: map<Aux, Bundle>, a: Aux,
                     slaves: seq<PortId>,
                     known: map<PortId, PortInfo>)
    requires a in was && a in gathered && a in now && PortSet(was[a].ports) <= known.Keys
    requires var r := Resolved(slaves, known); Gathered(was, gathered, a, r, PortSet(was[a].ports) + r)
    requires now == gathered[a := gathered[a].(ports := now[a].ports)]
    requires Pruned(gathered[a].ports, slaves, |gathered[a].ports|, now[a].ports)
    ensures var r := Resolved(slaves, known); Gathered(was, now, a, r, r) && PortSet(now[a].ports) == r
    ensures |now[a].ports| <= |slaves|
  {
    var r := Resolved(slaves, known);
    var ps := gathered[a].ports;
    assert ps[|ps|..] == [];
    forall p ensures p in PortSet(now[a].ports) <==> p in r {
      assert p in PortSet(gathered[a].ports) <==> p in PortSet(was[a].ports) + r;
    }
    FitsSlaves(now[a].ports, slaves, known);
  }

  /** A list of distinct ports is no longer than the slaves if they hold all of it. */
  lemma FitsSlaves(ps: seq<PortId>, slaves: seq<PortId>, known: map<PortId, PortInfo>)
    requires NoDup(ps) && PortSet(ps) == Resolved(slaves, known)
    ensures |ps| <= |slaves|
  {
    PortSetSize(ps);
    PortSetSize(slaves);
    SubsetSize(PortSet(ps), PortSet(slaves));
  }

  // ---------------------------------------------------------------- what the node can be asked for

  /** The command for a bundle, if there is one, passes the assertions. */
  predicate Printed(c: Cfg, vlans: set<int>, site: Site) {
    c.kind == L2 && !site.vrf ==> Fits(site.bridge, c.name, Desired(c.mode, c.vlan, c.trunks, vlans))
  }

  /** The ASIC port a bundle gets: what the ASIC reads in its command. */
  function Given(c: Cfg, vlans: set<int>, site: Site): Option<AsicPort> {
    if c.kind == L2 && !site.vrf then Told(site.bridge, c.name, Desired(c.mode, c.vlan, c.trunks, vlans)) else None
  }

  /** The ASIC port a bundle is entitled to on its node. */
  function Entitled(c: Cfg, vlans: set<int>, site: Site): Option<AsicPort> {
    if c.kind == L2 && !site.vrf then Desired(c.mode, c.vlan, c.trunks, vlans) else None
  }

  /** The transitions between kinds that the code carries out: none while the bundle is programmed,
      and a VLAN is routed by one bundle and does not change while it is. */
  predicate KindFits(c: Config, vlans: set<int>, site: Site, aux: Aux, s: Settings, asked: Kind) {
    var was := Before(c, aux, s.name);
    && (was.kind == Routing ==> asked == Routing && s.vlan == was.vlan)
    && (Entitled(was, vlans, site).Some? ==> asked == L2)
    && (asked == Routing && was.kind != BridgeOwn ==>
          0 < s.vlan < 4096 && forall a :: a in c && a != aux && c[a].kind == Routing ==> c[a].vlan != s.vlan)
  }

  /** Calls of `bundle_set` that the code handles: no slave is in another LAG, a LAG keeps its handle,
      names are unique, not too long, and fixed while the VLANs entitle the bundle to an ASIC port, and a
      bundle named after an interface gets no other member. */
  predicate Handled(c: Config, vlans: set<int>, known: map<PortId, PortInfo>, site: Site, aux: Aux, s: Settings) {
    && |s.name| < NAME_LIMIT
    && (aux in c && c[aux].bond ==> s.hwBondShouldExist)
    && (forall a :: a in c && a != aux ==> c[a].name != s.name && (c[a].bond ==> c[a].members !! PortSet(s.slaves)))
    && (aux in c && Entitled(c[aux], vlans, site).Some? ==> c[aux].name == s.name)
    && (forall p :: p in known && known[p].name == s.name ==>
        Settled(Before(c, aux, s.name).members, s.slaves, known) <= {p})
    && (Resolved(s.slaves, known) != {} ==> KindFits(c, vlans, site, aux, s, KindAsked(s, known, site)))
  }

  function Opened(bundles: map<Aux, Bundle>, aux: Aux, s: Settings): Bundle {
    var b := if aux in bundles then bundles[aux] else NewBundle(s.name);
    b.(name := s.name,
       bondHandle := if b.bondHandle == NO_HANDLE && s.hwBondShouldExist then BOND_HANDLE else b.bondHandle)
  }

  /** What adopting settings needs of a bundle that has its members. */
  ghost predicate MayBecome(bundles: map<Aux, Bundle>, aux: Aux, s: Settings, asked: Kind) {
    && aux in bundles && bundles[aux].name == s.name
    && (bundles[aux].kind == Routing ==> asked == Routing && s.vlan == bundles[aux].vlan)
    && (bundles[aux].added ==> asked == L2)
    && (asked == Routing && bundles[aux].kind != BridgeOwn ==>
          0 < s.vlan < 4096 && forall c :: Routes(bundles, c) && c != aux ==> bundles[c].vlan != s.vlan)
  }

  lemma AddedEntitled(bundles: map<Aux, Bundle>, asic: map<string, AsicPort>, vlans: set<int>, site: Site, a: Aux)
    requires AsicOk(bundles, asic, vlans, site, {}) && a in bundles
    ensures bundles[a].added ==> Entitled(CfgOf(bundles[a]), vlans, site).Some?
    ensures On(asic, bundles[a].name) == Given(CfgOf(bundles[a]), vlans, site)
            && Printed(CfgOf(bundles[a]), vlans, site)
  {
    hide Desired, ReadPort, CommandText, Clipped, Head, Fits, Named;
  }

  /** What a handled call means for opening the bundle and taking its members. */
  lemma HandledOpens(bundles: map<Aux, Bundle>, asic: map<string, AsicPort>, vlans: set<int>,
                     known: map<PortId, PortInfo>,
                     site: Site, aux: Aux, s: Settings)
    requires AsicOk(bundles, asic, vlans, site, {}) && Handled(ConfigOf(bundles), vlans, known, site, aux, s)
    ensures Refaced(bundles, vlans, site, aux, Opened(bundles, aux, s))
    ensures Takeable(bundles[aux := Opened(bundles, aux, s)], aux, s.slaves)
    ensures aux in bundles && bundles[aux].bondHandle != NO_HANDLE ==> s.hwBondShouldExist
  {
    var c := ConfigOf(bundles);
    if aux in bundles { AddedEntitled(bundles, asic, vlans, site, aux); }
    hide KindFits, AsicOk, Settled, Given, Printed;
    forall a | a in bundles && a != aux ensures bundles[a].name != s.name { assert c[a] == CfgOf(bundles[a]); }
    if aux in bundles { assert c[aux] == CfgOf(bundles[aux]); }
    forall a, p | a in bundles && a != aux && p in s.slaves && p in bundles[a].ports
      ensures bundles[a].bondHandle == NO_HANDLE
    {
      assert c[a] == CfgOf(bundles[a]);
      assert p in c[a].members && p in PortSet(s.slaves);
    }
  }

  /** And for adopting the settings once they are gathered. */
  lemma HandledAdopts(was: map<Aux, Bundle>, now: map<Aux, Bundle>, asic: map<string, AsicPort>, vlans: set<int>,
                      known: map<PortId, PortInfo>, site: Site, aux: Aux, s: Settings, members: set<PortId>)
    requires AsicOk(was, asic, vlans, site, {}) && Handled(ConfigOf(was), vlans, known, site, aux, s)
    requires var r := Resolved(s.slaves, known);
             r != {} && Gathered(was[aux := Opened(was, aux, s)], now, aux, r, members)
    ensures MayBecome(now, aux, s, KindAsked(s, known, site))
  {
    var c := ConfigOf(was);
    if aux in was { AddedEntitled(was, asic, vlans, site, aux); assert c[aux] == CfgOf(was[aux]); }
    hide AsicOk, Entitled, KindAsked, Resolved, NoDup;
    forall a | Routes(now, a) && a != aux ensures a in c && c[a].kind == Routing && c[a].vlan == now[a].vlan {
      assert c[a] == CfgOf(was[a]);
    }
  }

  /** The configuration once the members are gathered. */
  lemma ConfigGathered(was: map<Aux, Bundle>, now: map<Aux, Bundle>, aux: Aux, s: Settings, r: set<PortId>,
                       members: set<PortId>)
    requires Gathered(was[aux := Opened(was, aux, s)], now, aux, r, members)
    requires aux in was && was[aux].bondHandle != NO_HANDLE ==> s.hwBondShouldExist
    ensures ConfigOf(now - {aux}) == Others(ConfigOf(was), aux, r)
    ensures var b := Before(ConfigOf(was), aux, s.name);
            aux in now
              && CfgOf(now[aux]) == b.(name := s.name, members := members, bond := b.bond || s.hwBondShouldExist)
  {
    var c := ConfigOf(was);
    forall a ensures a in now && a != aux <==> a in Others(c, aux, r) {
      if a in was { assert c[a].members == PortSet(was[a].ports); }
    }
    assert CfgOf(now[aux]).members == PortSet(now[aux].ports);
    if aux in was { assert c[aux] == CfgOf(was[aux]); }
  }

  lemma ConfigPut(bundles: map<Aux, Bundle>, aux: Aux, b: Bundle)
    ensures ConfigOf(bundles[aux := b]) == ConfigOf(bundles - {aux})[aux := CfgOf(b)]
  {
    hide CfgOf;
  }

  lemma ConfigDel(bundles: map<Aux, Bundle>, aux: Aux)
    ensures ConfigOf(bundles - {aux}) == ConfigOf(bundles) - {aux}
    ensures aux !in bundles ==> bundles - {aux} == bundles
  {
    hide CfgOf;
  }

  /** What the bundle held before the call, and what it holds after gathering. */
  function MembersAfter(bundles: map<Aux, Bundle>, aux: Aux, s: Settings, known: map<PortId, PortInfo>): set<PortId> {
    Settled(PortSet(Opened(bundles, aux, s).ports), s.slaves, known)
  }

  lemma MembersAre(bundles: map<Aux, Bundle>, aux: Aux, s: Settings, known: map<PortId, PortInfo>)
    ensures MembersAfter(bundles, aux, s, known)
            == Settled(Before(ConfigOf(bundles), aux, s.name).members, s.slaves, known)
  {
    var b := Opened(bundles, aux, s);
    assert PortSet(b.ports) == Before(ConfigOf(bundles), aux, s.name).members;
  }

  lemma SettledEmptyIff(was: set<PortId>, slaves: seq<PortId>, known: map<PortId, PortInfo>)
    ensures Settled(was, slaves, known) == {} <==> Resolved(slaves, known) == {}
  {
    if Spared(was, slaves, known) && slaves != [] { assert slaves[0] in Resolved(slaves, known); }
  }

  /** Gathering leaves the other bundles shapely, and the settings' name fits its members. */
  lemma ShapelyGathered(was: map<Aux, Bundle>, now: map<Aux, Bundle>, known: map<PortId, PortInfo>, aux: Aux,
                        s: Settings,
                        r: set<PortId>, members: set<PortId>)
    requires Shapely(was, known) && Gathered(was[aux := Opened(was, aux, s)], now, aux, r, members)
    requires NoDup(now[aux].ports) && now[aux].ports != [] && |s.name| < NAME_LIMIT
    requires forall p :: p in known && known[p].name == s.name ==> members <= {p}
    ensures Shapely(now, known)
  {
    var ps := now[aux].ports;
    forall p | p in known && known[p].name == s.name ensures ps == [p] {
      assert ps[0] in PortSet(ps);
      assert PortSet(ps) == {p};
      PortSetSize(ps);
    }
    assert Shaped(now[aux], known);
    forall a | a in now && a != aux ensures Shaped(now[a], known) { assert now[a] == was[a]; }
  }

  lemma ShapelyPut(bundles: map<Aux, Bundle>, known: map<PortId, PortInfo>, a: Aux, b: Bundle)
    requires Shapely(bundles, known) && a in bundles && b.ports == bundles[a].ports && b.name == bundles[a].name
    requires b.kind == L2 ==> b.vlan < END_VLAN
    ensures Shapely(bundles[a := b], known)
  {
    assert Shaped(bundles[a], known);
  }

  lemma VlanBelow(bundles: map<Aux, Bundle>, known: map<PortId, PortInfo>, a: Aux)
    requires Shapely(bundles, known) && a in bundles
    ensures bundles[a].kind == L2 ==> bundles[a].vlan < END_VLAN
  {
    assert Shaped(bundles[a], known);
  }

  lemma ShapelyLess(bundles: map<Aux, Bundle>, known: map<PortId, PortInfo>, a: Aux)
    requires Shapely(bundles, known)
    ensures Shapely(bundles - {a}, known)
  {}

  /** The flags once the first `j` ports of the list have been looked at. */
  predicate FlaggedTo(was: set<PortId>, ps: seq<PortId>, j: nat, flagged: set<PortId>) {
    j <= |ps| && flagged == was + PortSet(ps[..j])
  }

  lemma FlaggedEnds(was: set<PortId>, ps: seq<PortId>)
    ensures FlaggedTo(was, ps, 0, was)
    ensures forall flagged :: FlaggedTo(was, ps, |ps|, flagged) ==> flagged == was + PortSet(ps)
  {
    assert ps[..|ps|] == ps;
  }

  lemma FlaggedStep(was: set<PortId>, ps: seq<PortId>, j: nat, flagged: set<PortId>)
    requires j < |ps| && FlaggedTo(was, ps, j, flagged)
    ensures FlaggedTo(was, ps, j + 1, if ps[j] in flagged then flagged else flagged + {ps[j]})
  {
    assert ps[..j + 1] == ps[..j] + [ps[j]];
  }

  predicate OffAsic(ps: seq<PortId>, known: map<PortId, PortInfo>, asic: map<string, AsicPort>) {
    forall p :: p in ps ==> p in known && known[p].name !in asic
  }

  predicate Linked(ps: seq<PortId>, known: map<PortId, PortInfo>, owner: map<PortId, Aux>) {
    forall p :: p in ps ==> p in known && p in owner
  }

  lemma ListLinked(bundles: map<Aux, Bundle>, owner: map<PortId, Aux>, known: map<PortId, PortInfo>, a: Aux)
    requires LinksOk(bundles, owner, known) && a in bundles
    ensures Linked(bundles[a].ports, known, owner)
  {}

  /** If no slave resolves, what is left without the bundle is shapely and is the configuration set. */
  lemma NothingGathered(was: map<Aux, Bundle>, now: map<Aux, Bundle>, known: map<PortId, PortInfo>, site: Site,
                        aux: Aux, s: Settings)
    requires Shapely(was, known) && (aux in was && was[aux].bondHandle != NO_HANDLE ==> s.hwBondShouldExist)
    requires Gathered(was[aux := Opened(was, aux, s)], now, aux, Resolved(s.slaves, known),
                      MembersAfter(was, aux, s, known))
    requires now[aux].ports == []
    ensures Resolved(s.slaves, known) == {} && Shapely(now - {aux}, known)
    ensures ConfigOf(now - {aux}) == ConfigSet(ConfigOf(was), aux, s, known, site)
  {
    var r := Resolved(s.slaves, known);
    assert PortSet(now[aux].ports) == {} == MembersAfter(was, aux, s, known);
    SettledEmptyIff(PortSet(Opened(was, aux, s).ports), s.slaves, known);
    ConfigGathered(was, now, aux, s, r, MembersAfter(was, aux, s, known));
    hide ConfigOf, Opened, Shaped, KindAsked, Adopted, Others, Settled;
  }

  /** Otherwise the configuration is set once the bundle has adopted the settings. */
  lemma SettingsAdopted(was: map<Aux, Bundle>, now: map<Aux, Bundle>, known: map<PortId, PortInfo>, site: Site,
                        aux: Aux, s: Settings)
    requires aux in was && was[aux].bondHandle != NO_HANDLE ==> s.hwBondShouldExist
    requires Gathered(was[aux := Opened(was, aux, s)], now, aux, Resolved(s.slaves, known),
                      MembersAfter(was, aux, s, known))
    requires now[aux].ports != []
    ensures Resolved(s.slaves, known) != {}
    ensures ConfigSet(ConfigOf(was), aux, s, known, site)
            == ConfigOf(now - {aux})[aux := Adopted(CfgOf(now[aux]), s, KindAsked(s, known, site), site)]
  {
    var r := Resolved(s.slaves, known);
    SomeResolved(now[aux].ports, MembersAfter(was, aux, s, known));
    SettledEmptyIff(PortSet(Opened(was, aux, s).ports), s.slaves, known);
    MembersAre(was, aux, s, known);
    ConfigGathered(was, now, aux, s, r, MembersAfter(was, aux, s, known));
    hide ConfigOf, Opened, KindAsked, Adopted, Others, CfgOf, Resolved, PortSet, Before, Settled;
  }

  lemma SomeResolved(ps: seq<PortId>, r: set<PortId>)
    requires ps != [] && PortSet(ps) == r
    ensures r != {}
  {
    assert ps[0] in PortSet(ps);
  }

  /** The flag `added` is no part of the configuration. */
  lemma SameConfig(bundles: map<Aux, Bundle>, known: map<PortId, PortInfo>, a: Aux, added: bool)
    requires a in bundles && Shapely(bundles, known)
    ensures var next := bundles[a := bundles[a].(added := added)];
            && ConfigOf(next) == ConfigOf(bundles) && Ordinary(next) == Ordinary(bundles)
            && next.Keys == bundles.Keys && Shapely(next, known)
  {
    assert Shaped(bundles[a], known);
    ShapelyPut(bundles, known, a, bundles[a].(added := added));
    hide Shapely, Shaped;
  }

  // ---------------------------------------------------------------- runs, and what they leave outside

  datatype Op = SetBundle(aux: Aux, settings: Option<Settings>) | SetVlanBit(vid: int, add: bool)
    | RemovePort(port: PortId)

  /** What callers have asked for so far, and the ports that are kept from the kernel. */
  datatype Want = Want(bundles: Config, vlans: set<int>, blocked: set<PortId>, stopped: bool)

  /** A command for this configuration is longer than the assertions allow. */
  predicate TooLong(c: Config, vlans: set<int>, site: Site) {
    (exists a :: a in c && !Printed(c[a], vlans, site)) || !BridgeFits(site.bridge, RoutedVlans(c))
  }

  /** The bundles left when a port goes away: unless it is in a LAG, its bundle goes with it. */
  function WithoutPort(c: Config, p: PortId): Config {
    map a | a in c && (p in c[a].members ==> c[a].bond) :: c[a]
  }

  /** The calls that are made: those of `bundle_set` that the code handles, with a VLAN that exists. */
  predicate Made(w: Want, op: Op, known: map<PortId, PortInfo>, site: Site) {
    match op
    case SetBundle(aux, Some(s)) => Handled(w.bundles, w.vlans, known, site, aux, s)
    case SetVlanBit(vid, add) => 0 <= vid < 4096
    case _ => true
  }

  function BundlesAsked(c: Config, op: Op, known: map<PortId, PortInfo>, site: Site): Config {
    match op
    case SetBundle(aux, None) => c - {aux}
    case SetBundle(aux, Some(s)) => ConfigSet(c, aux, s, known, site)
    case SetVlanBit(vid, add) => c
    case RemovePort(p) => WithoutPort(c, p)
  }

  function VlansAsked(vlans: set<int>, op: Op): set<int> {
    if !op.SetVlanBit? then vlans else if op.add then vlans + {op.vid} else vlans - {op.vid}
  }

  /** A port stays in its bundle. */
  predicate Stays(c: Config, next: Config, p: PortId) {
    exists a :: a in c && a in next && p in c[a].members && p in next[a].members
  }

  function Kept(blocked: set<PortId>, c: Config, next: Config): set<PortId> {
    set p | p in blocked && Stays(c, next, p)
  }

  /** The ports of the ordinary bundles. */
  function Switched(c: Config): set<PortId> {
    set a, p | a in c && c[a].kind == L2 && p in c[a].members :: p
  }

  /** Setting a bundle that is of this kind afterwards programs it. */
  predicate Programs(kind: Kind, s: Settings, site: Site) { kind == L2 && !site.vrf && !Postponed(s) }

  function BlockedBySet(next: Config, aux: Aux, s: Settings, site: Site): set<PortId> {
    if aux in next && Programs(next[aux].kind, s, site) then next[aux].members else {}
  }

  function BlockedByVlan(vlans: set<int>, vid: int, add: bool, next: Config, site: Site): set<PortId> {
    if add == (vid in vlans) || site.vrf then {} else Switched(next)
  }

  /** The ports of the bundles that a call programs: the bundle that is set, unless that is postponed,
      and all ordinary bundles when the VLANs change. */
  function Blocks(vlans: set<int>, op: Op, next: Config, site: Site): set<PortId> {
    match op
    case SetBundle(aux, Some(s)) => BlockedBySet(next, aux, s, site)
    case SetVlanBit(vid, add) => BlockedByVlan(vlans, vid, add, next, site)
    case _ => {}
  }

  /** Each call's effect on what is asked for.  A port is kept from the kernel from the moment its
      bundle is programmed until it leaves it.  Nothing happens once an assertion has stopped the
      program. */
  function Asked(w: Want, op: Op, known: map<PortId, PortInfo>, site: Site): Want {
    if w.stopped || !Made(w, op, known, site) then w
    else
      var (next, vlans) := (BundlesAsked(w.bundles, op, known, site), VlansAsked(w.vlans, op));
      Want(next, vlans, Kept(w.blocked, w.bundles, next) + Blocks(w.vlans, op, next, site), TooLong(next, vlans, site))
  }

  function AskedAll(w: Want, ops: seq<Op>, known: map<PortId, PortInfo>, site: Site): Want
    decreases |ops|
  {
    if ops == [] then w else AskedAll(Asked(w, ops[0], known, site), ops[1..], known, site)
  }

  /** The ASIC has exactly the ports it was given, under the bundles' names. */
  ghost predicate AsicFollows(asic: map<string, AsicPort>, w: Want, site: Site) {
    && (forall a :: a in w.bundles ==> On(asic, w.bundles[a].name) == Given(w.bundles[a], w.vlans, site))
    && (forall n :: n in asic ==> exists a :: a in w.bundles && w.bundles[a].name == n)
  }

  /** So what was asked for determines the ASIC table, whatever the calls were that asked for it. */
  lemma OnlyTheConfigurationMatters(one: map<string, AsicPort>, two: map<string, AsicPort>, w: Want, site: Site)
    requires AsicFollows(one, w, site) && AsicFollows(two, w, site)
    ensures one == two
  {
    hide Given;
    forall n ensures On(one, n) == On(two, n) {
      if n in one || n in two {
        var a :| a in w.bundles && w.bundles[a].name == n;
      }
    }
    assert forall n :: n in one <==> On(one, n).Some?;
    assert forall n :: n in two <==> On(two, n).Some?;
    assert forall n :: n in one ==> one[n] == On(one, n).value && two[n] == On(two, n).value;
  }

  /** The VLANs of the bundles that route one. */
  function RoutedVlans(c: Config): set<int> {
    set a | a in c && c[a].kind == Routing :: c[a].vlan
  }

  lemma AsicFollowsBundles(bundles: map<Aux, Bundle>, asic: map<string, AsicPort>, vlans: set<int>, site: Site,
                           blocked: set<PortId>, stopped: bool)
    requires AsicOk(bundles, asic, vlans, site, {})
    ensures AsicFollows(asic, Want(ConfigOf(bundles), vlans, blocked, stopped), site)
  {
    var c := ConfigOf(bundles);
    forall a | a in c ensures On(asic, c[a].name) == Given(c[a], vlans, site) {
      AddedEntitled(bundles, asic, vlans, site, a);
    }
    hide Given, BundleOnAsic, CfgOf;
    forall n | n in asic ensures exists a :: a in c && c[a].name == n {
      assert Named(bundles, n);
      var a :| a in bundles && bundles[a].name == n;
      NameOfCfg(bundles[a]);
      assert c[a].name == n;
    }
  }

  lemma NameOfCfg(b: Bundle)
    ensures CfgOf(b).name == b.name
  {}

  /** The bitmap is that of the bundles with routing enabled. */
  lemma RoutedFollowsBundles(bundles: map<Aux, Bundle>, routed: set<int>)
    requires RoutingOk(bundles, routed)
    ensures routed == RoutedVlans(ConfigOf(bundles))
  {
    var c := ConfigOf(bundles);
    forall v ensures v in routed <==> v in RoutedVlans(c) {
      if v in routed {
        assert RoutedBy(bundles, v);
        var a :| Routes(bundles, a) && bundles[a].vlan == v;
        assert c[a] == CfgOf(bundles[a]);
      }
      if v in RoutedVlans(c) {
        var a :| a in c && c[a].kind == Routing && c[a].vlan == v;
        assert Routes(bundles, a);
      }
    }
    assert routed == RoutedVlans(c);
  }

  lemma ConfigFreed(bundles: map<Aux, Bundle>, owner: map<PortId, Aux>, known: map<PortId, PortInfo>, p: PortId)
    requires LinksOk(bundles, owner, known)
    ensures Frees(bundles, owner, p) ==> ConfigOf(bundles - {owner[p]}) == WithoutPort(ConfigOf(bundles), p)
    ensures !Frees(bundles, owner, p) ==> ConfigOf(bundles) == WithoutPort(ConfigOf(bundles), p)
  {
    var c := ConfigOf(bundles);
    forall a | a in c ensures p in c[a].members <==> p in owner && owner[p] == a { assert c[a] == CfgOf(bundles[a]); }
    if Frees(bundles, owner, p) { ConfigDel(bundles, owner[p]); }
  }

  /** The ports kept from the kernel have both DROP rules, once, and no other port has one. */
  ghost predicate DropsFollow(blocked: set<PortId>, known: map<PortId, PortInfo>, input: multiset<string>,
                              forward: multiset<string>)
  {
    forall p :: p in known ==> input[known[p].name] == forward[known[p].name] == if p in blocked then 1 else 0
  }

  /** And they are members of bundles. */
  ghost predicate Held(blocked: set<PortId>, c: Config) {
    forall p :: p in blocked ==> exists a :: a in c && p in c[a].members
  }

  lemma DropsFollowBundles(bundles: map<Aux, Bundle>, owner: map<PortId, Aux>, known: map<PortId, PortInfo>,
                           flagged: set<PortId>, input: multiset<string>, forward: multiset<string>)
    requires LinksOk(bundles, owner, known) && DropsOk(known, owner, flagged, input, forward)
    ensures DropsFollow(flagged, known, input, forward) && Held(flagged, ConfigOf(bundles))
  {
    var c := ConfigOf(bundles);
    forall p | p in flagged ensures exists a :: a in c && p in c[a].members {
      var a := owner[p];
      assert c[a] == CfgOf(bundles[a]);
      assert a in c && p in c[a].members;
    }
  }

  /** The ports that keep their flag are those that stay in their bundle. */
  lemma StayingIsKept(flagged: set<PortId>, was: map<Aux, Bundle>, owner: map<PortId, Aux>, now: map<Aux, Bundle>,
                      owner': map<PortId, Aux>, known: map<PortId, PortInfo>)
    requires LinksOk(was, owner, known) && LinksOk(now, owner', known)
    ensures Staying(flagged, owner, owner') == Kept(flagged, ConfigOf(was), ConfigOf(now))
  {
    var (c, next) := (ConfigOf(was), ConfigOf(now));
    MembersLinked(was, owner, known);
    MembersLinked(now, owner', known);
    hide LinksOk, ConfigOf, CfgOf;
    forall p | p in Staying(flagged, owner, owner') ensures Stays(c, next, p) {
      assert owner[p] in c && owner[p] in next && p in c[owner[p]].members && p in next[owner[p]].members;
    }
  }

  /** Only membership matters for that. */
  lemma KeptByMembers(flagged: set<PortId>, c: Config, one: Config, two: Config)
    requires one.Keys == two.Keys && forall a :: a in one ==> one[a].members == two[a].members
    ensures Kept(flagged, c, one) == Kept(flagged, c, two)
  {
    forall p | Stays(c, one, p) ensures Stays(c, two, p) {
      var a :| a in c && a in one && p in c[a].members && p in one[a].members;
      assert a in two && p in two[a].members;
    }
    forall p | Stays(c, two, p) ensures Stays(c, one, p) {
      var a :| a in c && a in two && p in c[a].members && p in two[a].members;
      assert a in one && p in one[a].members;
    }
  }

  lemma AllKept(flagged: set<PortId>, bundles: map<Aux, Bundle>, owner: map<PortId, Aux>, known: map<PortId, PortInfo>)
    requires LinksOk(bundles, owner, known) && flagged <= owner.Keys
    ensures Kept(flagged, ConfigOf(bundles), ConfigOf(bundles)) == flagged
  {
    NoneLeft(flagged, owner);
    StayingIsKept(flagged, bundles, owner, bundles, owner, known);
  }

  lemma MembersLinked(bundles: map<Aux, Bundle>, owner: map<PortId, Aux>, known: map<PortId, PortInfo>)
    requires LinksOk(bundles, owner, known)
    ensures forall a, p :: a in ConfigOf(bundles) && p in ConfigOf(bundles)[a].members ==> p in owner && owner[p] == a
    ensures forall p :: p in owner ==> owner[p] in ConfigOf(bundles) && p in ConfigOf(bundles)[owner[p]].members
  {
    forall a | a in bundles ensures ConfigOf(bundles)[a] == CfgOf(bundles[a]) {}
  }

  lemma SameMembers(flagged: set<PortId>, c: Config, gathered: map<Aux, Bundle>, a: Aux, b: Bundle)
    requires a in gathered && b.ports == gathered[a].ports
    ensures Kept(flagged, c, ConfigOf(gathered)) == Kept(flagged, c, ConfigOf(gathered[a := b]))
  {
    var (one, two) := (ConfigOf(gathered), ConfigOf(gathered[a := b]));
    forall k | k in one ensures one[k].members == two[k].members {
      assert one[k] == CfgOf(gathered[k]) && two[k] == CfgOf(gathered[a := b][k]);
    }
    assert one.Keys == two.Keys;
    hide Kept, ConfigOf, CfgOf;
    KeptByMembers(flagged, c, one, two);
  }

  lemma NoneBlocked(bundles: map<Aux, Bundle>, aux: Aux, s: Settings, site: Site)
    requires aux !in bundles
    ensures BlockedBySet(ConfigOf(bundles), aux, s, site) == {}
  {}

  lemma BlockedMembers(bundles: map<Aux, Bundle>, aux: Aux, s: Settings, site: Site)
    requires aux in bundles
    ensures BlockedBySet(ConfigOf(bundles), aux, s, site)
            == if Programs(bundles[aux].kind, s, site) then PortSet(bundles[aux].ports) else {}
  {
    assert ConfigOf(bundles)[aux] == CfgOf(bundles[aux]);
    assert CfgOf(bundles[aux]).members == PortSet(bundles[aux].ports);
  }

  lemma StaysJoined(bundles: map<Aux, Bundle>, owner: map<PortId, Aux>, a: Aux, p: PortId)
    requires a in bundles
    ensures a in Joined(bundles, owner, a, p)
  {}

  /** The ports of the ordinary bundles among these. */
  function SwitchedIn(c: Config, keys: set<Aux>): set<PortId> {
    set a, p | a in c && a in keys && c[a].kind == L2 && p in c[a].members :: p
  }

  /** With all bundles but those in `todo` programmed again. */
  ghost predicate Redone(c: Config, ordinary: set<Aux>, todo: set<Aux>, stale: set<Aux>, was: set<PortId>,
                         flagged: set<PortId>)
  {
    stale == ordinary * todo && flagged == was + SwitchedIn(c, c.Keys - todo)
  }

  lemma RedoneBegins(bundles: map<Aux, Bundle>, flagged: set<PortId>)
    ensures Redone(ConfigOf(bundles), Ordinary(bundles), bundles.Keys, Ordinary(bundles), flagged, flagged)
  {
    var c := ConfigOf(bundles);
    assert c.Keys == bundles.Keys && c.Keys - bundles.Keys == {} && SwitchedIn(c, {}) == {};
    assert Ordinary(bundles) * bundles.Keys == Ordinary(bundles);
  }

  lemma RedoneStep(bundles: map<Aux, Bundle>, todo: set<Aux>, a: Aux, stale: set<Aux>, was: set<PortId>,
                   flagged: set<PortId>)
    requires a in todo && todo <= bundles.Keys
             && Redone(ConfigOf(bundles), Ordinary(bundles), todo, stale, was, flagged)
    ensures var (c, ordinary) := (ConfigOf(bundles), Ordinary(bundles));
            if bundles[a].kind == L2 then
              Redone(c, ordinary, todo - {a}, stale - {a}, was, flagged + PortSet(bundles[a].ports))
            else Redone(c, ordinary, todo - {a}, stale, was, flagged)
  {
    SwitchedStep(bundles, todo, a);
    hide ConfigOf, SwitchedIn, PortSet;
    assert Ordinary(bundles) * (todo - {a}) == Ordinary(bundles) * todo - {a};
  }

  lemma RedoneEnds(c: Config, ordinary: set<Aux>, stale: set<Aux>, was: set<PortId>, flagged: set<PortId>)
    requires Redone(c, ordinary, {}, stale, was, flagged)
    ensures stale == {} && flagged == was + Switched(c)
  {
    assert c.Keys - {} == c.Keys && SwitchedIn(c, c.Keys) == Switched(c);
  }

  lemma SwitchedStep(bundles: map<Aux, Bundle>, todo: set<Aux>, a: Aux)
    requires a in todo && a in bundles
    ensures var c := ConfigOf(bundles);
            SwitchedIn(c, c.Keys - (todo - {a}))
            == SwitchedIn(c, c.Keys - todo) + if bundles[a].kind == L2 then PortSet(bundles[a].ports) else {}
  {
    var c := ConfigOf(bundles);
    assert c[a] == CfgOf(bundles[a]) && c[a].members == PortSet(bundles[a].ports);
    hide ConfigOf, PortSet;
    var (more, less) := (SwitchedIn(c, c.Keys - (todo - {a})), SwitchedIn(c, c.Keys - todo));
    forall p ensures p in more <==> p in less || (c[a].kind == L2 && p in c[a].members) {
      if p in more {
        var b :| b in c && b in c.Keys - (todo - {a}) && c[b].kind == L2 && p in c[b].members;
        assert b == a || b in c.Keys - todo;
      }
      if p in less {
        var b :| b in c && b in c.Keys - todo && c[b].kind == L2 && p in c[b].members;
        assert b in c.Keys - (todo - {a});
      }
      if c[a].kind == L2 && p in c[a].members { assert a in c.Keys - (todo - {a}); }
    }
    assert more == less + if c[a].kind == L2 then c[a].members else {};
  }

  /** A node without bundles and VLANs. */
  lemma NothingYet(known: map<PortId, PortInfo>, site: Site)
    ensures LinksOk(map[], map[], known) && DistinctNames(map[]) && AsicOk(map[], map[], {}, site, {})
    ensures DropsOk(known, map[], {}, multiset{}, multiset{}) && RoutingOk(map[], {}) && Shapely(map[], known)
    ensures |site.bridge| < NAME_LIMIT ==> TrunksOk(site, {}, [0])
  {
    if |site.bridge| < NAME_LIMIT {
      NothingTrunked();
      BridgeToldIs(site.bridge, {});
    }
  }

  /** A bundle whose command is too long. */
  lemma UnprintedStops(bundles: map<Aux, Bundle>, a: Aux, vlans: set<int>, site: Site)
    requires a in bundles
    ensures !Printed(CfgOf(bundles[a]), vlans, site) ==> TooLong(ConfigOf(bundles), vlans, site)
  {
    hide Printed, CfgOf, BridgeFits, RoutedVlans;
    assert ConfigOf(bundles)[a] == CfgOf(bundles[a]);
  }

  /** A bundle that routes a VLAN goes on routing it. */
  lemma KindKept(bundles: map<Aux, Bundle>, aux: Aux, s: Settings, asked: Kind, site: Site)
    requires MayBecome(bundles, aux, s, asked)
    ensures var c := Adopted(CfgOf(bundles[aux]), s, asked, site);
            bundles[aux].kind == Routing ==> c.kind == Routing && c.vlan == bundles[aux].vlan
  {}

  /** What the steps of adopting settings do to a bundle's configuration. */
  lemma CfgMoves(b: Bundle, mode: Mode, vlan: int, trunks: Option<set<int>>, routed: int)
    ensures CfgOf(b).kind == b.kind
            && CfgOf(b.(kind := Routing, vlan := routed)) == CfgOf(b).(kind := Routing, vlan := routed)
    ensures CfgOf(b.(kind := BridgeOwn)) == CfgOf(b).(kind := BridgeOwn)
    ensures forall added :: CfgOf(b.(mode := mode, vlan := vlan, trunks := trunks, added := added))
                            == CfgOf(b).(mode := mode, vlan := vlan, trunks := trunks)
    ensures CfgOf(b.(mode := mode, vlan := vlan, trunks := trunks))
            == CfgOf(b).(mode := mode, vlan := vlan, trunks := trunks)
  {}

  lemma ClampedBelow(vlan: int)
    ensures ClampedVlan(vlan) < END_VLAN
  {}

  // ---------------------------------------------------------------- when the ASIC is as intended

  /** An ordinary bundle gets the port it is entitled to if and only if its command, if it has one, is
      shorter than the buffer. */
  lemma GivenIntendedIff(c: Cfg, vlans: set<int>, site: Site)
    requires Printed(c, vlans, site) && |c.name| < NAME_LIMIT && |site.bridge| < NAME_LIMIT
    ensures var port := Entitled(c, vlans, site);
            Given(c, vlans, site) == port <==>
              (port.Some? ==> |CommandText(site.bridge, c.name, port.value)| < MAX_CMD_LEN)
  {
    hide Desired, CommandText, Told, Printable;
    var port := Desired(c.mode, c.vlan, c.trunks, vlans);
    if c.kind == L2 && !site.vrf {
      DesiredPrintable(c.mode, c.vlan, c.trunks, vlans);
      ToldIs(site.bridge, c.name, port);
    }
  }

  /** The trunk list that the bridge's own port should have. */
  function BridgeTrunks(routed: set<int>): seq<nat> {
    var list := Trunked(routed, None);
    if list == [] then [0] else list
  }

  /** The bridge's port has it if and only if there is no VLAN or the command is shorter than the buffer. */
  lemma BridgeIntendedIff(site: Site, routed: set<int>)
    requires |site.bridge| < NAME_LIMIT && BridgeFits(site.bridge, routed)
    ensures BridgeTold(site.bridge, routed) == Some(BridgeTrunks(routed)) <==>
            Trunked(routed, None) == [] || |BridgeText(BridgeHead(site.bridge), routed)| < MAX_CMD_LEN
  {
    hide Trunked, BridgeText, BridgeTold;
    BridgeToldIs(site.bridge, routed);
    var vs := Trunked(routed, None);
    if vs != [] {
      var cut := vs[..|vs| - 1] + [vs[|vs| - 1] / 10];
      assert cut[|vs| - 1] != vs[|vs| - 1];
    }
  }

  /** When adopting settings stops the program, the configuration asked for has a command that is too long. */
  lemma StoppedBy(gathered: map<Aux, Bundle>, aux: Aux, c: Cfg, vlans: set<int>, site: Site, routed: set<int>)
    requires aux in gathered && routed == RoutedVlans(ConfigOf(gathered))
    requires gathered[aux].kind == Routing ==> c.kind == Routing && c.vlan == gathered[aux].vlan
    requires !Printed(c, vlans, site) || (c.kind == Routing && !BridgeFits(site.bridge, routed + {c.vlan}))
    ensures TooLong(ConfigOf(gathered - {aux})[aux := c], vlans, site)
  {
    var next := ConfigOf(gathered - {aux})[aux := c];
    hide Printed, BridgeFits, CfgOf;
    if !Printed(c, vlans, site) {
      assert next[aux] == c;
    } else {
      KindOfCfg(gathered);
      forall v ensures v in RoutedVlans(next) <==> v in routed + {c.vlan} {
        if v in RoutedVlans(next) && v != c.vlan {
          var a :| a in next && next[a].kind == Routing && next[a].vlan == v;
          assert a in ConfigOf(gathered) && ConfigOf(gathered)[a] == next[a];
        }
        if v in routed && v != c.vlan {
          var a :| a in ConfigOf(gathered) && ConfigOf(gathered)[a].kind == Routing && ConfigOf(gathered)[a].vlan == v;
          assert a != aux && next[a] == ConfigOf(gathered)[a];
        }
        assert next[aux] == c;
      }
      assert RoutedVlans(next) == routed + {c.vlan};
    }
  }

  lemma KindOfCfg(bundles: map<Aux, Bundle>)
    ensures forall a :: a in bundles ==>
              ConfigOf(bundles)[a].kind == bundles[a].kind && ConfigOf(bundles)[a].vlan == bundles[a].vlan
  {}

  lemma {:induction false} StoppedForGood(w: Want, ops: seq<Op>, known: map<PortId, PortInfo>, site: Site)
    requires w.stopped
    ensures AskedAll(w, ops, known, site) == w
    decreases |ops|
  {
    hide Made, BundlesAsked, VlansAsked, Kept, Blocks, TooLong;
    if ops != [] { StoppedForGood(Asked(w, ops[0], known, site), ops[1..], known, site); }
  }

  // ---------------------------------------------------------------- a slave named twice

  /** A LAG of access ports without a VLAN. */
  function Lag(members: set<PortId>): Cfg { Cfg("lag1", L2, members, Access, -1, None, true) }

  function LagSettings(slaves: seq<PortId>): Settings { Settings("lag1", slaves, 2, 0, Access, None, true) }

  predicate TwoPorts(known: map<PortId, PortInfo>) {
    known == map[1 := PortInfo("eth1", false), 2 := PortInfo("eth2", false)]
  }

  lemma LagFits(members: set<PortId>, site: Site)
    requires |site.bridge| < NAME_LIMIT
    ensures !TooLong(map[5 := Lag(members)], {}, site)
  {
    NothingTrunked();
    var c := map[5 := Lag(members)];
    assert RoutedVlans(c) == {};
    hide Trunked, BridgeHead;
  }

  lemma LagOfTwo(known: map<PortId, PortInfo>, site: Site)
    requires TwoPorts(known)
    ensures Handled(map[], {}, known, site, 5, LagSettings([2]))
    ensures ConfigSet(map[], 5, LagSettings([2]), known, site) == map[5 := Lag({2})]
  {
    hide Desired;
    assert Resolved([2], known) == {2} && PortSet([2]) == {2} && {} + {2} == {2};
    assert Others(map[], 5, {2}) == map[];
    assert "lag1"[0] != 'e';
  }

  lemma LagSetTwice(known: map<PortId, PortInfo>, site: Site)
    requires TwoPorts(known)
    ensures Handled(map[5 := Lag({2})], {}, known, site, 5, LagSettings([1, 1]))
    ensures ConfigSet(map[5 := Lag({2})], 5, LagSettings([1, 1]), known, site) == map[5 := Lag({1, 2})]
  {
    RepeatedSlaveKeepsLeftover(1, 2, known);
    assert Others(map[5 := Lag({2})], 5, {1}) == map[];
    assert "lag1"[0] != 'e' && PortSet([1, 1]) == {1};
  }
}
