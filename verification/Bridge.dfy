/** Bundles, VLANs and the ASIC's port table of one node (src/ofproto-sim-provider.c).

    A node keeps bundles, back pointers from ports to bundles, VLAN bitmaps and "already programmed"
    flags, and edits three outside tables one command at a time: the ASIC's ports, the trunk list of
    the bridge's own port, and the DROP rules of the kernel.  Every call is specified by what it does
    to the configuration and to the set of ports kept from the kernel.  `Valid` says that the ASIC's
    ports and, unless its command was refused, the bridge's trunk list are functions of the
    configuration, and the DROP rules are those of the ports kept from the kernel. */
module Bridge {
  import opened Blocking
  import opened Bundles
  import opened Intent
  import opened PortCommand
  import opened VlanList
  import opened Wrappers

  class Node {
    const site: Site
    const known: map<PortId, PortInfo>  // the ports that resolve
    var bundles: map<Aux, Bundle>
    var owner: map<PortId, Aux>         // port->bundle
    var flagged: set<PortId>            // port->iptable_rules_added
    var vlans: set<int>                 // vlans_bmp
    var routed: set<int>                // vlan_intf_bmp
    // the ASIC's ports, the trunk list of the bridge's own port, and the kernel's DROP rules
    var asic: map<string, AsicPort>
    var bridgeTrunks: seq<nat>
    var inputDrop: multiset<string>
    var forwardDrop: multiset<string>

    ghost predicate KnownOk() { UniqueDevices(known) && |site.bridge| < NAME_LIMIT }

    /** What holds even while a bundle is being taken apart or put together. */
    ghost predicate Sound(stale: set<Aux>)
      reads this
    {
      && KnownOk() && DistinctNames(bundles)
      && LinksOk(bundles, owner, known)
      && AsicOk(bundles, asic, vlans, site, stale)
      && DropsOk(known, owner, flagged, inputDrop, forwardDrop)
      && RoutingOk(bundles, routed) && TrunksOk(site, routed, bridgeTrunks)
    }

    ghost predicate Valid()
      reads this
    {
      Sound({}) && Shapely(bundles, known)
    }

    function Configured(): Config
      reads this
    {
      ConfigOf(bundles)
    }

    constructor (site: Site, known: map<PortId, PortInfo>)
      requires UniqueDevices(known) && |site.bridge| < NAME_LIMIT
      ensures Valid() && bundles == map[] && vlans == {} && flagged == {} && asic == map[]
      ensures this.site == site && this.known == known
    {
      hide LinksOk, DistinctNames, AsicOk, DropsOk, RoutingOk, TrunksOk, Shapely, UniqueDevices;
      NothingYet(known, site);
      this.site, this.known := site, known;
      bundles, owner, flagged, vlans, routed := map[], map[], {}, {}, {};
      asic, bridgeTrunks, inputDrop, forwardDrop := map[], [0], multiset{}, multiset{};
    }

    // ------------------------------------------------------------ DROP rules

    method EnableInIptables(port: string)
      modifies this`inputDrop, this`forwardDrop
      ensures inputDrop == old(inputDrop) - multiset{port} && forwardDrop == old(forwardDrop) - multiset{port}
    {
      inputDrop := inputDrop - multiset{port};
      forwardDrop := forwardDrop - multiset{port};
    }

    /** Only the INPUT chain is looked at before both rules are added. */
    method DisableInIptables(port: string)
      modifies this`inputDrop, this`forwardDrop
      ensures inputDrop == old(inputDrop) + if port in old(inputDrop) then multiset{} else multiset{port}
      ensures forwardDrop == old(forwardDrop) + if port in old(inputDrop) then multiset{} else multiset{port}
    {
      if port !in inputDrop {
        inputDrop := inputDrop + multiset{port};
        forwardDrop := forwardDrop + multiset{port};
      }
    }

    // ------------------------------------------------------------ sim_bridge_vlan_routing_update

    /** `ok` is false when an assertion stops the program. */
    method VlanRoutingUpdate(vlan: int, add: bool) returns (ok: bool)
      requires 0 <= vlan < 4096 && TrunksOk(site, routed, bridgeTrunks) && |site.bridge| < NAME_LIMIT
      modifies this`routed, this`bridgeTrunks
      ensures routed == if add then old(routed) + {vlan} else old(routed) - {vlan}
      ensures ok <==> BridgeFits(site.bridge, routed)
      ensures ok ==> TrunksOk(site, routed, bridgeTrunks)
      ensures ok ==> bridgeTrunks == if routed == old(routed) then old(bridgeTrunks)
                                     else BridgeTold(site.bridge, routed).GetOr(old(bridgeTrunks))
    {
      if add == (vlan in routed) {
        assert routed == if add then routed + {vlan} else routed - {vlan};
        return true;
      }
      hide BridgeText, Clipped, ReceivedTrunks;
      routed := if add then routed + {vlan} else routed - {vlan};
      var cmd;
      ok, cmd := BridgeTrunkCommand(BridgeHead(site.bridge), routed);
      if ok {
        var told := ReceivedTrunks(site.bridge, cmd);
        if told.Some? {
          bridgeTrunks := told.value;
        }
      }
    }

    // ------------------------------------------------------------ bundle_del_port

    method DelPort(p: PortId)
      requires p in owner && KnownOk()
      requires LinksOk(bundles, owner, known) && DropsOk(known, owner, flagged, inputDrop, forwardDrop)
      modifies this`bundles, this`owner, this`flagged, this`inputDrop, this`forwardDrop
      ensures LinksOk(bundles, owner, known) && DropsOk(known, owner, flagged, inputDrop, forwardDrop)
      ensures var a := old(owner)[p];
              bundles == old(bundles)[a := old(bundles)[a].(ports := Without(old(bundles)[a].ports, p))]
      ensures owner == old(owner) - {p} && flagged == old(flagged) - {p}
    {
      var a := owner[p];
      LinksDel(bundles, owner, known, p);
      DropsDel(known, owner, flagged, inputDrop, forwardDrop, p);
      hide LinksOk, DropsOk, UniqueDevices, Without;
      bundles := bundles[a := bundles[a].(ports := Without(bundles[a].ports, p))];
      owner := owner - {p};
      if p in flagged {
        EnableInIptables(known[p].name);
        flagged := flagged - {p};
      }
    }

    // ------------------------------------------------------------ bundle_destroy and bundle_remove

    /** Takes every port out of a bundle. */
    method DelPorts(a: Aux)
      requires a in bundles && KnownOk()
      requires LinksOk(bundles, owner, known) && DropsOk(known, owner, flagged, inputDrop, forwardDrop)
      modifies this`bundles, this`owner, this`flagged, this`inputDrop, this`forwardDrop
      ensures bundles - {a} == old(bundles) - {a} && owner == Disowned(old(owner), a)
      ensures flagged == Staying(old(flagged), old(owner), owner)
      ensures LinksOk(bundles - {a}, owner, known) && DropsOk(known, owner, flagged, inputDrop, forwardDrop)
    {
      ghost var bundles0, owner0, flagged0 := bundles, owner, flagged;
      hide LinksOk, DropsOk, Disowned, Staying, Leaves;
      FlaggedOwned(known, owner, flagged, inputDrop, forwardDrop);
      NoneLeft(flagged, owner);
      while bundles[a].ports != []
        invariant a in bundles && bundles - {a} == bundles0 - {a}
        invariant LinksOk(bundles, owner, known) && DropsOk(known, owner, flagged, inputDrop, forwardDrop)
        invariant Disowned(owner, a) == Disowned(owner0, a)
        invariant flagged == Staying(flagged0, owner0, owner)
        decreases |bundles[a].ports|
      {
        var p := bundles[a].ports[0];
        FirstPort(bundles, owner, known, a);
        FlaggedOwned(known, owner, flagged, inputDrop, forwardDrop);
        OneLeft(flagged, owner, p);
        LeftOn(flagged0, owner0, owner, owner - {p});
        DelPort(p);
      }
      LastPortGone(bundles, owner, known, a);
    }

    /** Takes a bundle out of the ASIC and out of the bridge's trunk list. */
    method Unprogram(a: Aux, ghost stale: set<Aux>)
      requires a in bundles && DistinctNames(bundles)
      requires AsicOk(bundles, asic, vlans, site, stale) && RoutingOk(bundles, routed)
      requires TrunksOk(site, routed, bridgeTrunks) && |site.bridge| < NAME_LIMIT
      modifies this`asic, this`routed, this`bridgeTrunks
      ensures AsicOk(bundles - {a}, asic, vlans, site, stale) && RoutingOk(bundles - {a}, routed)
      ensures TrunksOk(site, routed, bridgeTrunks)
    {
      AsicDel(bundles, asic, vlans, site, stale, a);
      RoutingDel(bundles, routed, a);
      var b := bundles[a];
      FewerFit(site.bridge, routed - {b.vlan}, routed);
      hide AsicOk, RoutingOk, BridgeTold, BridgeFits, DistinctNames;
      if b.added {
        asic := asic - {b.name};
      }
      if b.kind == Routing {
        var ok := VlanRoutingUpdate(b.vlan, false);
        assert ok;  // a shorter text
      }
    }

    method Destroy(a: Aux, ghost stale: set<Aux>)
      requires Sound(stale) && a in bundles
      modifies this`bundles, this`owner, this`flagged, this`inputDrop, this`forwardDrop, this`asic, this`routed,
        this`bridgeTrunks
      ensures Sound(stale) && bundles == old(bundles) - {a} && owner == Disowned(old(owner), a)
      ensures flagged == Staying(old(flagged), old(owner), owner)
    {
      hide LinksOk, DropsOk, AsicOk, RoutingOk, Disowned, DistinctNames, UniqueDevices;
      DistinctDel(bundles, a);
      Unprogram(a, stale);
      DelPorts(a);
      bundles := bundles - {a};
    }

    /** `DelPort` with the rest of the invariant. */
    method DropPort(p: PortId)
      requires Sound({}) && p in owner
      modifies this`bundles, this`owner, this`flagged, this`inputDrop, this`forwardDrop
      ensures Sound({}) && owner == old(owner) - {p} && flagged == old(flagged) - {p}
      ensures var a := old(owner)[p];
              && a in old(bundles)
              && bundles == old(bundles)[a := old(bundles)[a].(ports := Without(old(bundles)[a].ports, p))]
    {
      hide LinksOk, DropsOk, AsicOk, RoutingOk, DistinctNames, UniqueDevices, Without, Refaced;
      OwnerThere(bundles, owner, known, p);
      ghost var a := owner[p];
      PortsRefaced(bundles, vlans, site, a, Without(bundles[a].ports, p));
      FacePut(bundles, asic, vlans, site, routed, a, bundles[a].(ports := Without(bundles[a].ports, p)));
      DelPort(p);
    }

    lemma OwnerInBundles(p: PortId)
      requires Sound({}) && p in owner
      ensures owner[p] in bundles && p in known && Disowned(owner - {p}, owner[p]) == Disowned(owner, owner[p])
    {
      hide AsicOk, DropsOk, RoutingOk, DistinctNames;
    }

    lemma AllFlagsOwned()
      requires Sound({})
      ensures flagged <= owner.Keys
    {
      hide LinksOk, AsicOk, RoutingOk, DistinctNames;
    }

    /** Takes a port out of its bundle and, unless that is a LAG, the bundle with it. */
    method Remove(p: PortId)
      requires Sound({})
      modifies this`bundles, this`owner, this`flagged, this`inputDrop, this`forwardDrop, this`asic, this`routed,
        this`bridgeTrunks
      ensures Sound({})
      ensures Frees(old(bundles), old(owner), p) ==>
                bundles == old(bundles) - {old(owner)[p]} && owner == Disowned(old(owner), old(owner)[p])
      ensures !Frees(old(bundles), old(owner), p) ==> bundles == old(bundles) && owner == old(owner)
      ensures flagged == Staying(old(flagged), old(owner), owner)
    {
      AllFlagsOwned();
      OneLeft(flagged, owner, p);
      if p !in owner { return; }
      OwnerInBundles(p);
      LeftBy(flagged, owner, owner - {p}, owner[p]);
      hide Sound, Disowned, Without, Staying, Leaves;
      var a := owner[p];
      if bundles[a].bondHandle == NO_HANDLE {
        PutTwice(bundles, a, bundles[a].(ports := Without(bundles[a].ports, p)), bundles[a]);
        DropPort(p);
        Destroy(a, {});
      }
    }

    // ------------------------------------------------------------ bundle_add_port, and the members of a bundle

    method AddPort(a: Aux, p: PortId) returns (ok: bool)
      requires Sound({}) && a in bundles
      requires p in owner && owner[p] != a ==> Frees(bundles, owner, p)
      modifies this`bundles, this`owner, this`flagged, this`inputDrop, this`forwardDrop, this`asic, this`routed,
        this`bridgeTrunks
      ensures Sound({})
      ensures ok <==> p in known
      ensures bundles == if p in known then Joined(old(bundles), old(owner), a, p) else old(bundles)
      ensures owner == if p in known then MovedTo(old(owner), a, p) else old(owner)
      ensures flagged == Staying(old(flagged), old(owner), owner)
    {
      AllFlagsOwned();
      OneLeft(flagged, owner, p);
      if p !in known { return false; }
      ok := true;
      JoinedOwner(flagged, owner, a, p);
      hide Sound, Staying, Leaves, Disowned;
      if p !in owner || owner[p] != a {
        if p in owner {
          Remove(p);
        }
        PutPort(a, p);
      }
    }

    method PutPort(a: Aux, p: PortId)
      requires Sound({}) && a in bundles && p in known && p !in owner
      modifies this`bundles, this`owner
      ensures Sound({}) && bundles == old(bundles)[a := old(bundles)[a].(ports := old(bundles)[a].ports + [p])]
      ensures owner == old(owner)[p := a]
    {
      hide LinksOk, DropsOk, AsicOk, RoutingOk, DistinctNames, UniqueDevices, Refaced;
      var b := bundles[a].(ports := bundles[a].ports + [p]);
      PortsRefaced(bundles, vlans, site, a, b.ports);
      FacePut(bundles, asic, vlans, site, routed, a, b);
      LinksAdd(bundles, owner, known, a, p);
      DropsWider(known, owner, flagged, inputDrop, forwardDrop, a, p);
      bundles := bundles[a := b];
      owner := owner[p := a];
    }

    lemma ListFacts(a: Aux)
      requires Sound({}) && a in bundles
      ensures NoDup(bundles[a].ports) && PortSet(bundles[a].ports) <= known.Keys
      ensures forall p :: p in bundles[a].ports ==> p in owner && owner[p] == a
    {
      hide AsicOk, DropsOk, RoutingOk, DistinctNames;
    }

    /** Deletes from the list every port that is not a slave. */
    method Prune(a: Aux, slaves: seq<PortId>)
      requires Sound({}) && a in bundles
      modifies this`bundles, this`owner, this`flagged, this`inputDrop, this`forwardDrop
      ensures Sound({}) && a in bundles && bundles == old(bundles)[a := old(bundles)[a].(ports := bundles[a].ports)]
      ensures Pruned(old(bundles)[a].ports, slaves, |old(bundles)[a].ports|, bundles[a].ports)
      ensures Leaves(old(owner), owner) && flagged == Staying(old(flagged), old(owner), owner)
    {
      ghost var was, owner0, flagged0 := bundles, owner, flagged;
      var ps := bundles[a].ports;
      ListFacts(a);
      AllFlagsOwned();
      NoneLeft(flagged, owner);
      PruneBegins(ps, slaves);
      PutTwice(was, a, was[a], was[a]);
      hide Sound, Without, NoDup, Pruned, Leaves, Staying;
      for j := 0 to |ps|
        invariant Sound({}) && a in bundles && bundles == was[a := was[a].(ports := bundles[a].ports)]
        invariant Pruned(ps, slaves, j, bundles[a].ports)
        invariant Leaves(owner0, owner) && flagged == Staying(flagged0, owner0, owner)
      {
        PruneStep(ps, slaves, j, bundles[a].ports);
        if ps[j] !in slaves {
          ListFacts(a);
          PutTwice(was, a, bundles[a], bundles[a].(ports := Without(bundles[a].ports, ps[j])));
          AllFlagsOwned();
          OneLeft(flagged, owner, ps[j]);
          LeftOn(flagged0, owner0, owner, owner - {ps[j]});
          DropPort(ps[j]);
        }
      }
    }

    lemma GatherNext(was: map<Aux, Bundle>, a: Aux, slaves: seq<PortId>, i: nat)
      requires Sound({}) && i < |slaves| && a in bundles && GatheredUpTo(was, bundles, known, a, slaves, i)
      requires Takeable(was, a, slaves)
      ensures var p := slaves[i];
              && GatheredUpTo(was, if p in known then Joined(bundles, owner, a, p)
                              else bundles, known, a, slaves, i + 1)
              && (p in owner && owner[p] != a ==> Frees(bundles, owner, p))
              && a in Joined(bundles, owner, a, p)
      ensures AllKnown(slaves[..i + 1], known) <==> AllKnown(slaves[..i], known) && slaves[i] in known
    {
      StaysJoined(bundles, owner, a, slaves[i]);
      hide AsicOk, DropsOk, RoutingOk, DistinctNames, LinksOk, GatheredUpTo, Joined, Takeable, Frees, AllKnown;
      GatherOne(was, bundles, owner, known, a, slaves, i);
      StillTakeable(was, bundles, known, a, slaves, i);
      var p := slaves[i];
      if p in owner && owner[p] != a { SlaveTakeable(bundles, owner, known, a, slaves, p); }
    }

    /** Adds the slaves to the list. */
    method Gather(a: Aux, slaves: seq<PortId>) returns (ok: bool)
      requires Sound({}) && a in bundles && Takeable(bundles, a, slaves)
      modifies this`bundles, this`owner, this`flagged, this`inputDrop, this`forwardDrop, this`asic, this`routed,
        this`bridgeTrunks
      ensures Sound({}) && GatheredUpTo(old(bundles), bundles, known, a, slaves, |slaves|)
      ensures ok <==> AllKnown(slaves, known)
      ensures flagged == Staying(old(flagged), old(owner), owner)
    {
      hide Sound, GatheredUpTo, Gathered, Takeable, Joined, Frees, AllKnown, Resolved, MovedTo, MovesTo, Staying,
        Leaves;
      ok := true;
      ghost var was, owner0, flagged0 := bundles, owner, flagged;
      AllFlagsOwned();
      NoneLeft(flagged, owner);
      NoneMoved(owner, a);
      GatherBegins(was, known, a, slaves);
      for i := 0 to |slaves|
        invariant Sound({}) && a in bundles && GatheredUpTo(was, bundles, known, a, slaves, i)
        invariant ok <==> AllKnown(slaves[..i], known)
        invariant MovesTo(owner0, owner, a) && flagged == Staying(flagged0, owner0, owner)
      {
        GatherNext(was, a, slaves, i);
        MovedOn(flagged0, owner0, owner, a, slaves[i]);
        var added := AddPort(a, slaves[i]);
        ok := ok && added;
      }
      GatherEnds(was, bundles, known, a, slaves);
    }

    /** Brings the list to the slaves that resolve, unless a repeated slave hides a leftover. */
    method SetMembers(a: Aux, slaves: seq<PortId>)
      requires Sound({}) && a in bundles && Takeable(bundles, a, slaves)
      modifies this`bundles, this`owner, this`flagged, this`inputDrop, this`forwardDrop, this`asic, this`routed,
        this`bridgeTrunks
      ensures Sound({})
      ensures Gathered(old(bundles), bundles, a, Resolved(slaves, known),
                       Settled(PortSet(old(bundles)[a].ports), slaves, known))
      ensures a in bundles && NoDup(bundles[a].ports)
      ensures flagged == Staying(old(flagged), old(owner), owner)
    {
      ghost var was, owner0, flagged0 := bundles, owner, flagged;
      ListFacts(a);
      hide Sound, GatheredUpTo, Gathered, Takeable, AllKnown, PortSet, Resolved, NoDup, Pruned, Staying, Leaves;
      var ok := Gather(a, slaves);
      GatherEnds(was, bundles, known, a, slaves);
      ListFacts(a);
      PortSetSize(bundles[a].ports);
      ghost var gathered, owner1 := bundles, owner;
      if !ok || |bundles[a].ports| != |slaves| {
        Prune(a, slaves);
        GatherPruned(was, gathered, bundles, a, slaves, known);
        LeftOn(flagged0, owner0, owner1, owner);
        ListFacts(a);
      }
      assert |bundles[a].ports| <= |slaves|;
    }

    // ------------------------------------------------------------ bundle_configure

    /** Keeps the traffic of a bundle's ports away from the kernel. */
    method BlockKernel(a: Aux)
      requires a in bundles && KnownOk()
      requires LinksOk(bundles, owner, known) && DropsOk(known, owner, flagged, inputDrop, forwardDrop)
      modifies this`flagged, this`inputDrop, this`forwardDrop
      ensures DropsOk(known, owner, flagged, inputDrop, forwardDrop)
      ensures flagged == old(flagged) + PortSet(bundles[a].ports)
    {
      hide LinksOk, DropsOk, PortSet, FlaggedTo, UniqueDevices;
      var ps := bundles[a].ports;
      ghost var was := flagged;
      ListLinked(bundles, owner, known, a);
      FlaggedEnds(was, ps);
      for j := 0 to |ps|
        invariant DropsOk(known, owner, flagged, inputDrop, forwardDrop) && FlaggedTo(was, ps, j, flagged)
      {
        FlaggedStep(was, ps, j, flagged);
        if ps[j] !in flagged {
          DropsAdd(known, owner, flagged, inputDrop, forwardDrop, ps[j]);
          DisableInIptables(known[ps[j]].name);
          flagged := flagged + {ps[j]};
        }
      }
    }

    /** Deletes the ASIC ports of a bundle's members, of which there are none. */
    method DeleteMemberPorts(ps: seq<PortId>)
      requires OffAsic(ps, known, asic)
      modifies this`asic
      ensures asic == old(asic)
    {
      for j := 0 to |ps|
        invariant asic == old(asic)
      {
        assert ps[j] in ps;
        asic := asic - {known[ps[j]].name};
      }
    }

    lemma MembersOff(a: Aux, stale: set<Aux>)
      requires Sound(stale) && a in bundles && Shapely(bundles, known)
      ensures |bundles[a].ports| > 1 ==> OffAsic(bundles[a].ports, known, asic - {bundles[a].name})
      ensures !bundles[a].added ==> bundles[a].name !in asic
    {
      hide DropsOk, RoutingOk, DistinctNames, Shapely, Named, Desired;
      if |bundles[a].ports| > 1 {
        forall p | p in bundles[a].ports ensures p in known && known[p].name !in asic {
          MembersNotOnAsic(bundles, owner, known, asic, vlans, site, stale, a, p);
        }
      }
    }

    /** Puts a bundle on the ASIC afresh, as the ASIC reads the command in the buffer. */
    method Program(a: Aux, ghost stale: set<Aux>) returns (ok: bool)
      requires Sound(stale) && a in bundles && bundles[a].kind == L2 && Shapely(bundles, known)
      modifies this`bundles, this`asic
      ensures ok <==> Printed(CfgOf(old(bundles)[a]), vlans, site)
      ensures ok ==> AsicOk(bundles, asic, vlans, site, stale - {a}) && DistinctNames(bundles)
      ensures ok ==> a in old(bundles) && a in bundles && bundles == WithAdded(old(bundles), a, bundles[a].added)
    {
      hide *;
      MembersOff(a, stale);
      ghost var port := ProgramFacts(a, stale);
      AddedAgain(bundles, a, false, port.Some?);
      AddedAgain(bundles, a, port.Some?, false);
      Withdraw(a);
      if site.vrf { return true; }
      if |bundles[a].ports| > 1 {
        DeleteMemberPorts(bundles[a].ports);
      }
      ok := Issue(a);
    }

    lemma ProgramFacts(a: Aux, stale: set<Aux>) returns (port: Option<AsicPort>)
      requires Sound(stale) && a in bundles && bundles[a].kind == L2 && Shapely(bundles, known)
      ensures var (b, c) := (bundles[a], CfgOf(bundles[a]));
              var wish := Desired(b.mode, b.vlan, b.trunks, vlans);
              && |site.bridge| < NAME_LIMIT && |b.name| < NAME_LIMIT && b.vlan < END_VLAN
              && port == (if site.vrf then None else Told(site.bridge, b.name, wish))
              && (Printed(c, vlans, site) <==> site.vrf || Fits(site.bridge, b.name, wish))
              && (Printed(c, vlans, site) ==>
                    && AsicOk(WithAdded(bundles, a, port.Some?), AsicWith(asic - {b.name}, b.name, port), vlans, site,
                              stale - {a})
                    && DistinctNames(WithAdded(bundles, a, port.Some?)))
              && AsicWith(asic - {b.name}, b.name, None) == asic - {b.name}
    {
      hide LinksOk, DropsOk, AsicOk, RoutingOk, DistinctNames, UniqueDevices, NamedAfterPort, Desired, Told, Fits,
        TrunksOk, WithAdded;
      assert Shaped(bundles[a], known);
      hide Shapely;
      var (b, c) := (bundles[a], CfgOf(bundles[a]));
      port := if site.vrf then None else Told(site.bridge, b.name, Desired(b.mode, b.vlan, b.trunks, vlans));
      if Printed(c, vlans, site) { AsicProgrammed(bundles, asic, vlans, site, stale, a, port); }
    }

    /** Prints and runs the command for a bundle that is not on the ASIC. */
    method Issue(a: Aux) returns (ok: bool)
      requires a in bundles && !bundles[a].added && bundles[a].vlan < END_VLAN
      requires |site.bridge| < NAME_LIMIT && |bundles[a].name| < NAME_LIMIT
      modifies this`bundles, this`asic
      ensures var b := old(bundles)[a];
              var wish := Desired(b.mode, b.vlan, b.trunks, vlans);
              var port := Told(site.bridge, b.name, wish);
              && (ok <==> Fits(site.bridge, b.name, wish))
              && (ok ==> asic == AsicWith(old(asic), b.name, port) && bundles == WithAdded(old(bundles), a, port.Some?))
    {
      var b := bundles[a];
      hide Desired, PortCommand.Received, CommandText, Fits, Clipped;
      assert WithAdded(bundles, a, false) == bundles;
      assert bundles[a := b.(added := true)] == WithAdded(bundles, a, true);
      var cmd;
      ok, cmd := AddPortCommand(site.bridge, b.name, b.mode, b.vlan, b.trunks, vlans);
      if ok && cmd.Some? {
        var port := PortCommand.Received(site.bridge, b.name, cmd.value);
        if port.Some? {
          asic := asic[b.name := port.value];
          bundles := bundles[a := b.(added := true)];
        }
      }
    }

    /** Deletes a bundle's ASIC port if it has one. */
    method Withdraw(a: Aux)
      requires a in bundles && (!bundles[a].added ==> bundles[a].name !in asic)
      modifies this`bundles, this`asic
      ensures a in old(bundles) && bundles == WithAdded(old(bundles), a, false)
              && asic == old(asic) - {old(bundles)[a].name}
    {
      if bundles[a].added {
        asic := asic - {bundles[a].name};
        bundles := bundles[a := bundles[a].(added := false)];
      } else {
        assert bundles == bundles[a := bundles[a].(added := false)];
      }
    }

    /** Reprograms one bundle of a node, which always has ports. */
    method Configure(a: Aux, ghost stale: set<Aux>) returns (ok: bool)
      requires Sound(stale) && a in bundles && bundles[a].kind == L2 && Shapely(bundles, known)
      modifies this`bundles, this`asic, this`flagged, this`inputDrop, this`forwardDrop
      ensures ok <==> Printed(CfgOf(old(bundles)[a]), vlans, site)
      ensures ok ==> Sound(stale - {a})
      ensures ok ==> a in bundles && bundles == old(bundles)[a := old(bundles)[a].(added := bundles[a].added)]
      ensures ok ==> flagged == old(flagged) + if site.vrf then {} else PortSet(bundles[a].ports)
    {
      ghost var was := bundles;
      hide LinksOk, DropsOk, AsicOk, RoutingOk, DistinctNames, UniqueDevices, PortSet, Shapely, TrunksOk, Printed;
      forall added: bool
        ensures var next := was[a := was[a].(added := added)];
                LinksOk(next, owner, known) && RoutingOk(next, routed)
      {
        LinksFace(was, owner, known, a, was[a].(added := added));
        RoutingPut(was, routed, a, was[a].(added := added));
      }
      ok := Program(a, stale);
      if ok && !site.vrf {
        BlockKernel(a);
      }
    }

    // ------------------------------------------------------------ bundle_set

    /** Finds or makes the bundle, and gives it its name and, for a LAG, a handle. */
    method Open(aux: Aux, s: Settings)
      requires Sound({}) && Refaced(bundles, vlans, site, aux, Opened(bundles, aux, s))
      modifies this`bundles
      ensures Sound({}) && bundles == old(bundles)[aux := Opened(old(bundles), aux, s)]
    {
      hide LinksOk, DropsOk, AsicOk, RoutingOk, DistinctNames, UniqueDevices, Refaced;
      LinksFace(bundles, owner, known, aux, Opened(bundles, aux, s));
      FacePut(bundles, asic, vlans, site, routed, aux, Opened(bundles, aux, s));
      var b := if aux in bundles then bundles[aux] else NewBundle(s.name);
      if b.name != s.name {
        b := b.(name := s.name);
      }
      if b.bondHandle == NO_HANDLE && s.hwBondShouldExist {
        b := b.(bondHandle := BOND_HANDLE);
      }
      bundles := bundles[aux := b];
    }

    /** An internal port becomes the routing interface of a VLAN. */
    method BecomeRouting(a: Aux, vlan: int) returns (ok: bool)
      requires Sound({}) && a in bundles && !bundles[a].added && 0 < vlan < 4096
      requires bundles[a].kind == Routing ==> bundles[a].vlan == vlan
      requires forall c :: Routes(bundles, c) && c != a ==> bundles[c].vlan != vlan
      modifies this`bundles, this`routed, this`bridgeTrunks
      ensures ok <==> BridgeFits(site.bridge, old(routed) + {vlan})
      ensures ok ==> Sound({}) && bundles == old(bundles)[a := old(bundles)[a].(kind := Routing, vlan := vlan)]
    {
      hide LinksOk, DropsOk, AsicOk, RoutingOk, DistinctNames, UniqueDevices, Routes, TrunksOk, BridgeFits;
      var b := bundles[a].(kind := Routing, vlan := vlan);
      LinksFace(bundles, owner, known, a, b);
      AsicLeaves(bundles, asic, vlans, site, a, b);
      RoutingAdd(bundles, routed, a, vlan);
      ok := VlanRoutingUpdate(vlan, true);
      bundles := bundles[a := b];
    }

    method BecomeBridgeOwn(a: Aux)
      requires Sound({}) && a in bundles && !bundles[a].added && bundles[a].kind == L2
      modifies this`bundles
      ensures Sound({}) && bundles == old(bundles)[a := old(bundles)[a].(kind := BridgeOwn)]
    {
      hide LinksOk, DropsOk, AsicOk, RoutingOk, DistinctNames, UniqueDevices;
      var b := bundles[a].(kind := BridgeOwn);
      LinksFace(bundles, owner, known, a, b);
      AsicLeaves(bundles, asic, vlans, site, a, b);
      RoutingPut(bundles, routed, a, b);
      bundles := bundles[a := b];
    }

    /** Copies the VLAN settings into an L2 bundle. */
    method CopySettings(a: Aux, s: Settings)
      requires Sound({}) && a in bundles && bundles[a].kind == L2 && Shapely(bundles, known)
      modifies this`bundles
      ensures Sound({a}) && Shapely(bundles, known)
      ensures bundles
              == old(bundles)[a := old(bundles)[a].(mode := s.mode, vlan := ClampedVlan(s.vlan), trunks := s.trunks)]
    {
      hide LinksOk, DropsOk, AsicOk, RoutingOk, DistinctNames, UniqueDevices, Shapely, ClampedVlan;
      var b := bundles[a].(mode := s.mode, vlan := ClampedVlan(s.vlan), trunks := s.trunks);
      ClampedBelow(s.vlan);
      LinksFace(bundles, owner, known, a, b);
      RoutingPut(bundles, routed, a, b);
      AsicRestyled(bundles, asic, vlans, site, {}, a, b);
      ShapelyPut(bundles, known, a, b);
      assert {} + {a} == {a};
      bundles := bundles[a := b];
    }

    /** Takes over the VLAN settings and reprograms the bundle. */
    method Restyle(a: Aux, s: Settings) returns (ok: bool)
      requires Sound({}) && a in bundles && bundles[a].kind == L2 && Shapely(bundles, known)
      modifies this`bundles, this`asic, this`flagged, this`inputDrop, this`forwardDrop
      ensures var b := old(bundles)[a].(mode := s.mode, vlan := ClampedVlan(s.vlan), trunks := s.trunks);
              && (ok <==> Printed(CfgOf(b), vlans, site))
              && (ok ==> a in bundles && bundles == old(bundles)[a := b.(added := bundles[a].added)])
      ensures ok ==> Sound({}) && flagged == old(flagged) + if site.vrf then {} else PortSet(bundles[a].ports)
    {
      hide *;
      ghost var was := bundles;
      assert {a} - {a} == {};
      CopySettings(a, s);
      ghost var b := bundles[a];
      ok := Configure(a, {a});
      if ok { PutTwice(was, a, b, bundles[a]); }
    }

    /** Takes on the settings, as what the bundle is or is becoming. */
    method Adopt(aux: Aux, s: Settings) returns (ok: bool)
      requires Sound({}) && Shapely(bundles, known) && MayBecome(bundles, aux, s, KindAsked(s, known, site))
      modifies this`bundles, this`asic, this`routed, this`bridgeTrunks, this`flagged, this`inputDrop, this`forwardDrop
      ensures ok ==> Sound({}) && aux in bundles
      ensures ok ==> bundles == old(bundles)[aux := bundles[aux]]
      ensures ok ==>
                flagged
                == old(flagged) + if Programs(bundles[aux].kind, s, site) then PortSet(bundles[aux].ports) else {}
      ensures ok ==> bundles[aux].ports == old(bundles)[aux].ports && bundles[aux].name == old(bundles)[aux].name
      ensures ok ==> (bundles[aux].kind == L2 ==> bundles[aux].vlan < END_VLAN)
      ensures ok ==> CfgOf(bundles[aux]) == Adopted(CfgOf(old(bundles)[aux]), s, KindAsked(s, known, site), site)
      ensures !ok ==>
                var c := Adopted(CfgOf(old(bundles)[aux]), s, KindAsked(s, known, site), site);
                !Printed(c, vlans, site) || (c.kind == Routing && !BridgeFits(site.bridge, old(routed) + {c.vlan}))
    {
      hide Sound, Shapely, Shaped, Printed, BridgeFits, CfgOf, ClampedVlan, PortSet, Routes;
      VlanBelow(bundles, known, aux);
      CfgMoves(bundles[aux], s.mode, ClampedVlan(s.vlan), s.trunks, s.vlan);
      ClampedBelow(s.vlan);
      PutTwice(bundles, aux, bundles[aux], bundles[aux]);
      if bundles[aux].kind == BridgeOwn { return true; }
      if |s.slaves| == 1 && s.slaves[0] in known && known[s.slaves[0]].internal && !site.vrf {
        if s.vlan != 0 && bundles[aux].name != site.bridge {
          ok := BecomeRouting(aux, s.vlan);
          return;
        }
        if bundles[aux].name == site.bridge {
          BecomeBridgeOwn(aux);
          return true;
        }
      }
      if site.vrf { return true; }
      if s.slavesEntered > 1 && |s.slaves| <= 1 { return true; }
      ok := Restyle(aux, s);
    }

    method DestroyIfThere(aux: Aux)
      requires Valid()
      modifies this`bundles, this`owner, this`flagged, this`inputDrop, this`forwardDrop, this`asic, this`routed,
        this`bridgeTrunks
      ensures Valid() && Configured() == old(Configured()) - {aux}
      ensures flagged == Kept(old(flagged), old(Configured()), Configured())
    {
      ghost var was, owner0, flagged0 := bundles, owner, flagged;
      hide Sound, Shapely, ConfigOf, Staying, Kept, LinksOk;
      LinksHere();
      NoneLeft(flagged, owner);
      ShapelyLess(bundles, known, aux);
      ConfigDel(bundles, aux);
      if aux in bundles {
        Destroy(aux, {});
        LinksHere();
      }
      StayingIsKept(flagged0, was, owner0, bundles, owner, known);
    }

    lemma LinksHere()
      requires Sound({})
      ensures LinksOk(bundles, owner, known) && flagged <= owner.Keys
    {
      hide LinksOk, AsicOk, RoutingOk, DistinctNames;
    }

    lemma MeaningOfHandled(aux: Aux, s: Settings)
      requires Valid() && Handled(Configured(), vlans, known, site, aux, s)
      ensures Refaced(bundles, vlans, site, aux, Opened(bundles, aux, s)) && AsicOk(bundles, asic, vlans, site, {})
      ensures Takeable(bundles[aux := Opened(bundles, aux, s)], aux, s.slaves)
      ensures aux in bundles && bundles[aux].bondHandle != NO_HANDLE ==> s.hwBondShouldExist
      ensures |s.name| < NAME_LIMIT
      ensures forall p :: p in known && known[p].name == s.name ==> MembersAfter(bundles, aux, s, known) <= {p}
    {
      hide LinksOk, DropsOk, AsicOk, RoutingOk, DistinctNames, UniqueDevices, Shapely, ConfigOf, NoDup, KindFits,
        TrunksOk, Settled;
      HandledOpens(bundles, asic, vlans, known, site, aux, s);
      MembersAre(bundles, aux, s, known);
    }

    /** The settings have been taken from configuration `c` and flags `was`, and the ASIC's port is as
        they ask if the bundle is an ordinary one and the call was not postponed. */
    ghost predicate SettingsReached(c: Config, was: set<PortId>, aux: Aux, s: Settings)
      reads this
    {
      && SettingsTaken(c, Configured(), known, site, aux, s)
      && FlagsAfterSet(was, flagged, c, Configured(), site, aux, s)
      && (aux in bundles && bundles[aux].kind == L2 && !site.vrf && !Waits(s) ==>
            Reflects(asic, site.bridge, s.name, s, vlans))
    }

    lemma Reached(c: Config, was: set<PortId>, aux: Aux, s: Settings)
      requires Valid() && Handled(c, vlans, known, site, aux, s) && Configured() == ConfigSet(c, aux, s, known, site)
      requires flagged == Kept(was, c, Configured()) + BlockedBySet(Configured(), aux, s, site)
      ensures SettingsReached(c, was, aux, s)
    {
      hide LinksOk, DropsOk, RoutingOk, DistinctNames, UniqueDevices, TrunksOk, AsicOk, ConfigSet, Handled, Kept,
        BlockedBySet,
        BundleTaken, Reflects, FlagsAfterSet, Given, Printed, CfgOf, Styled;
      SetTakes(c, vlans, known, site, aux, s);
      SetFlags(was, c, Configured(), site, aux, s);
      if aux in bundles && bundles[aux].kind == L2 && !site.vrf && !Waits(s) {
        assert Shaped(bundles[aux], known);
        AddedEntitled(bundles, asic, vlans, site, aux);
        NameOfCfg(bundles[aux]);
        KindOfCfg(bundles);
        StyledNow(if aux in c then Some(c[aux]) else None, CfgOf(bundles[aux]), known, site, s);
        StyledReflects(asic, CfgOf(bundles[aux]), s, vlans, site);
      }
    }

    /** `ok` is false when an assertion stops the program. */
    method BundleSet(aux: Aux, settings: Option<Settings>) returns (ok: bool, rc: int)
      requires Valid()
      requires settings.Some? ==> Handled(Configured(), vlans, known, site, aux, settings.value)
      modifies this`bundles, this`owner, this`flagged, this`inputDrop, this`forwardDrop, this`asic, this`routed,
        this`bridgeTrunks
      ensures var next := if settings.None? then old(Configured()) - {aux}
                          else ConfigSet(old(Configured()), aux, settings.value, known, site);
              && (ok <==> !TooLong(next, vlans, site))
              && (ok ==> Valid() && Configured() == next)
              && (ok ==> flagged == Kept(old(flagged), old(Configured()), next)
                                    + if settings.None? then {} else BlockedBySet(next, aux, settings.value, site))
      ensures ok ==> rc == if settings.Some? && Resolved(settings.value.slaves, known) == {} then EINVAL else 0
      // and in terms of the settings and the tables alone
      ensures ok && settings.Some? ==> SettingsReached(old(Configured()), old(flagged), aux, settings.value)
    {
      hide TooLong, Sound, Shapely, AsicOk, Handled, Opened, Refaced, Takeable, Gathered, Resolved, KindAsked, NoDup,
        ConfigOf,
        ConfigSet, Settled, MembersAfter, Staying, Kept, LinksOk, BlockedBySet;
      if settings.None? {
        DestroyIfThere(aux);
        ValidFits();
        return true, 0;
      }
      var s := settings.value;
      MeaningOfHandled(aux, s);
      ghost var was, owner0, flagged0, table := bundles, owner, flagged, asic;
      LinksHere();
      OpenSettled(aux, s);
      LinksHere();
      if bundles[aux].ports == [] {
        NothingGathered(was, bundles, known, site, aux, s);
        LeftBy(flagged0, owner0, owner, aux);
        Destroy(aux, {});
        LinksHere();
        StayingIsKept(flagged0, was, owner0, bundles, owner, known);
        NoneBlocked(bundles, aux, s, site);
        ValidFits();
        Reached(ConfigOf(was), flagged0, aux, s);
        return true, EINVAL;
      }
      StayingIsKept(flagged0, was, owner0, bundles, owner, known);
      SettingsAdopted(was, bundles, known, site, aux, s);
      ghost var gathered := bundles;
      ok := AdoptGathered(aux, s, was, table);
      if ok {
        SameMembers(flagged0, ConfigOf(was), gathered, aux, bundles[aux]);
        Reached(ConfigOf(was), flagged0, aux, s);
      }
      rc := 0;
    }

    /** The rest of the call once the members are gathered. */
    method AdoptGathered(aux: Aux, s: Settings, ghost was: map<Aux, Bundle>, ghost table: map<string, AsicPort>)
      returns (ok: bool)
      requires Sound({}) && Shapely(was, known) && AsicOk(was, table, vlans, site, {}) && |s.name| < NAME_LIMIT
      requires Handled(ConfigOf(was), vlans, known, site, aux, s)
      requires aux in was && was[aux].bondHandle != NO_HANDLE ==> s.hwBondShouldExist
      requires Gathered(was[aux := Opened(was, aux, s)], bundles, aux, Resolved(s.slaves, known),
                        MembersAfter(was, aux, s, known))
      requires aux in bundles && bundles[aux].ports != [] && NoDup(bundles[aux].ports)
      requires forall p :: p in known && known[p].name == s.name ==> MembersAfter(was, aux, s, known) <= {p}
      modifies this`bundles, this`flagged, this`inputDrop, this`forwardDrop, this`asic, this`routed, this`bridgeTrunks
      ensures var next := ConfigSet(ConfigOf(was), aux, s, known, site);
              && (ok <==> !TooLong(next, vlans, site))
              && (ok ==> Valid() && Configured() == next)
              && (ok ==> flagged == old(flagged) + BlockedBySet(next, aux, s, site))
      ensures ok ==> aux in bundles && bundles == old(bundles)[aux := bundles[aux]]
      ensures ok ==> aux in old(bundles) && bundles[aux].ports == old(bundles)[aux].ports
    {
      ghost var gathered, members, routedBefore := bundles, MembersAfter(was, aux, s, known), routed;
      hide Sound, Shapely, AsicOk, Handled, Opened, Gathered, MayBecome, Resolved, KindAsked, NoDup, ConfigOf,
        ConfigSet, CfgOf,
        Adopted, MembersAfter, Printed, BridgeFits, TooLong, BlockedBySet, PortSet;
      ShapelyGathered(was, bundles, known, aux, s, Resolved(s.slaves, known), members);
      SettingsAdopted(was, gathered, known, site, aux, s);
      HandledAdopts(was, bundles, table, vlans, known, site, aux, s, members);
      RoutedHere();
      KindKept(gathered, aux, s, KindAsked(s, known, site), site);
      ok := Adopt(aux, s);
      if ok {
        ConfigPut(gathered, aux, bundles[aux]);
        ShapelyPut(gathered, known, aux, bundles[aux]);
        BlockedMembers(bundles, aux, s, site);
        ValidFits();
      } else {
        StoppedBy(gathered, aux, Adopted(CfgOf(gathered[aux]), s, KindAsked(s, known, site), site), vlans, site,
                  routedBefore);
      }
    }

    lemma RoutedHere()
      requires Sound({})
      ensures routed == RoutedVlans(ConfigOf(bundles)) && DistinctNames(bundles)
    {
      hide LinksOk, DropsOk, AsicOk, DistinctNames, UniqueDevices, TrunksOk;
      RoutedFollowsBundles(bundles, routed);
    }

    /** In a valid state every command for the configuration passes the assertions. */
    lemma ValidFits()
      requires Valid()
      ensures !TooLong(Configured(), vlans, site)
    {
      RoutedHere();
      hide LinksOk, DropsOk, RoutingOk, DistinctNames, UniqueDevices, Shapely, BridgeTold, BridgeFits, Printed, CfgOf,
        RoutedVlans;
      forall a | a in bundles ensures Printed(CfgOf(bundles[a]), vlans, site) {
        AddedEntitled(bundles, asic, vlans, site, a);
      }
    }

    /** Opens the bundle and gives it its members. */
    method OpenSettled(aux: Aux, s: Settings)
      requires Sound({}) && Refaced(bundles, vlans, site, aux, Opened(bundles, aux, s))
      requires Takeable(bundles[aux := Opened(bundles, aux, s)], aux, s.slaves)
      modifies this`bundles, this`owner, this`flagged, this`inputDrop, this`forwardDrop, this`asic, this`routed,
        this`bridgeTrunks
      ensures Sound({})
      ensures Gathered(old(bundles)[aux := Opened(old(bundles), aux, s)], bundles, aux, Resolved(s.slaves, known),
                       MembersAfter(old(bundles), aux, s, known))
      ensures aux in bundles && NoDup(bundles[aux].ports)
      ensures flagged == Staying(old(flagged), old(owner), owner)
    {
      hide Sound, Refaced, Opened, Takeable, Settled, NoDup, Resolved, PortSet, Staying;
      Open(aux, s);
      SetMembers(aux, s.slaves);
    }

    // ------------------------------------------------------------ set_vlan

    /** `ok` is false when an assertion stops the program. */
    method SetVlan(vid: int, add: bool) returns (ok: bool)
      requires Valid() && 0 <= vid < 4096
      modifies this`vlans, this`bundles, this`asic, this`flagged, this`inputDrop, this`forwardDrop
      ensures vlans == if add then old(vlans) + {vid} else old(vlans) - {vid}
      ensures ok <==> !TooLong(old(Configured()), vlans, site)
      ensures ok ==> Valid() && Configured() == old(Configured())
      ensures ok ==> flagged == old(flagged) + BlockedByVlan(old(vlans), vid, add, Configured(), site)
      ensures ok && add == (vid in old(vlans)) ==> flagged == old(flagged)
      ensures ok && add != (vid in old(vlans)) ==> FlagsAfterVlan(old(flagged), flagged, Configured(), site)
    {
      VlanFlags(flagged, vlans, vid, add, Configured(), site);
      hide TooLong, Switched, FlagsAfterVlan;
      if add == (vid in vlans) {
        assert vlans == if add then vlans + {vid} else vlans - {vid};
        ValidFits();
        return true;
      }
      FlipBit(vid, add);
      ok := true;
      if !site.vrf {
        ok := Reconfigure();
      }
      if ok { ValidFits(); }
    }

    method FlipBit(vid: int, add: bool)
      requires Sound({})
      modifies this`vlans
      ensures vlans == (if add then old(vlans) + {vid} else old(vlans) - {vid})
      ensures Sound(if site.vrf then {} else Ordinary(bundles))
    {
      hide LinksOk, DropsOk, AsicOk, RoutingOk, DistinctNames, UniqueDevices;
      ghost var next := if add then vlans + {vid} else vlans - {vid};
      AsicVlans(bundles, asic, vlans, next, site);
      vlans := if add then vlans + {vid} else vlans - {vid};
    }

    /** Reprograms the ordinary bundles, in any order. */
    method Reconfigure() returns (ok: bool)
      requires Sound(Ordinary(bundles)) && Shapely(bundles, known)
      modifies this`bundles, this`asic, this`flagged, this`inputDrop, this`forwardDrop
      requires !site.vrf
      ensures ok ==> Sound({}) && Shapely(bundles, known) && ConfigOf(bundles) == old(ConfigOf(bundles))
      ensures ok ==> flagged == old(flagged) + Switched(ConfigOf(bundles))
      ensures !ok ==> TooLong(old(ConfigOf(bundles)), vlans, site)
    {
      hide Sound, Shapely, ConfigOf, CfgOf, Printed, TooLong, Ordinary, Switched, Redone, PortSet;
      ghost var config, ordinary, flagged0 := ConfigOf(bundles), Ordinary(bundles), flagged;
      var todo := bundles.Keys;
      ghost var stale := ordinary;
      RedoneBegins(bundles, flagged);
      while todo != {}
        invariant Sound(stale) && Shapely(bundles, known) && ConfigOf(bundles) == config
                  && Ordinary(bundles) == ordinary
        invariant todo <= bundles.Keys && Redone(config, ordinary, todo, stale, flagged0, flagged)
        decreases |todo|
      {
        var a: Aux :| a in todo;
        RedoneStep(bundles, todo, a, stale, flagged0, flagged);
        if bundles[a].kind == L2 {
          UnprintedStops(bundles, a, vlans, site);
          ok := ConfigureAgain(a, stale);
          if !ok { return; }
          stale := stale - {a};
        }
        todo := todo - {a};
      }
      RedoneEnds(config, ordinary, stale, flagged0, flagged);
      ok := true;
    }

    method ConfigureAgain(a: Aux, ghost stale: set<Aux>) returns (ok: bool)
      requires Sound(stale) && a in bundles && bundles[a].kind == L2 && Shapely(bundles, known)
      modifies this`bundles, this`asic, this`flagged, this`inputDrop, this`forwardDrop
      ensures ok <==> Printed(CfgOf(old(bundles)[a]), vlans, site)
      ensures ok ==> Sound(stale - {a}) && Shapely(bundles, known)
      ensures ok ==> ConfigOf(bundles) == old(ConfigOf(bundles)) && Ordinary(bundles) == old(Ordinary(bundles))
      ensures ok ==> bundles.Keys == old(bundles.Keys)
      ensures ok ==> flagged == old(flagged) + if site.vrf then {} else PortSet(old(bundles)[a].ports)
    {
      hide *;
      ghost var was := bundles;
      ok := Configure(a, stale);
      if ok { SameConfig(was, known, a, bundles[a].added); }
    }

    // ------------------------------------------------------------ whole runs

    /** The port's device goes away. */
    method PortGone(p: PortId)
      requires Valid()
      modifies this`bundles, this`owner, this`flagged, this`inputDrop, this`forwardDrop, this`asic, this`routed,
        this`bridgeTrunks
      ensures Valid() && Configured() == WithoutPort(old(Configured()), p)
      ensures flagged == Kept(old(flagged), old(Configured()), Configured())
      ensures PortLeft(old(Configured()), Configured(), p)
      ensures forall q :: q in flagged <==> q in old(flagged) && SameBundle(old(Configured()), Configured(), q)
    {
      ghost var was, owner0, flagged0 := bundles, owner, flagged;
      PortLeaves(Configured(), p);
      StaysSame(flagged, Configured(), WithoutPort(Configured(), p));
      GoneFacts(p);
      LinksHere();
      hide Sound, Shapely, ConfigOf, WithoutPort, Frees, LinksOk, Staying, Kept, PortLeft, SameBundle;
      Remove(p);
      LinksHere();
      StayingIsKept(flagged0, was, owner0, bundles, owner, known);
    }

    lemma GoneFacts(p: PortId)
      requires Valid()
      ensures Frees(bundles, owner, p) ==>
                ConfigOf(bundles - {owner[p]}) == WithoutPort(ConfigOf(bundles), p)
                  && Shapely(bundles - {owner[p]}, known)
      ensures !Frees(bundles, owner, p) ==> ConfigOf(bundles) == WithoutPort(ConfigOf(bundles), p)
    {
      hide AsicOk, LinksOk, DropsOk, RoutingOk, DistinctNames, Shapely, ConfigOf, WithoutPort;
      ConfigFreed(bundles, owner, known, p);
      if Frees(bundles, owner, p) { ShapelyLess(bundles, known, owner[p]); }
    }

    ghost function Wanted(): Want
      reads this
    {
      Want(Configured(), vlans, flagged, false)
    }

    /** In every valid state the ASIC's ports, the bridge's trunk list and the DROP rules are functions
        of what was asked for. */
    lemma OutsideFollows()
      requires Valid()
      ensures AsicFollows(asic, Wanted(), site) && !TooLong(Configured(), vlans, site)
      ensures TrunksFollow(site, RoutedVlans(Configured()), bridgeTrunks)
      ensures DropsFollow(Wanted().blocked, known, inputDrop, forwardDrop) && Held(Wanted().blocked, Configured())
    {
      ValidFits();
      RoutedHere();
      hide LinksOk, DropsOk, AsicOk, RoutingOk, DistinctNames, UniqueDevices, Shapely, ConfigOf, AsicFollows,
        DropsFollow, Held,
        RoutedVlans, BridgeTold, BridgeFits, TooLong, TrunksFollow;
      AsicFollowsBundles(bundles, asic, vlans, site, flagged, false);
      DropsFollowBundles(bundles, owner, known, flagged, inputDrop, forwardDrop);
    }

    lemma NamesShort()
      requires Valid()
      ensures |site.bridge| < NAME_LIMIT && forall a :: a in Configured() ==> |Configured()[a].name| < NAME_LIMIT
    {
      hide LinksOk, DropsOk, AsicOk, RoutingOk, DistinctNames, UniqueDevices, TrunksOk;
      forall a | a in bundles ensures |Configured()[a].name| < NAME_LIMIT {
        assert Shaped(bundles[a], known);
        assert Configured()[a] == CfgOf(bundles[a]);
      }
    }

    /** Once the bridge has accepted a whole list, it carries the VLANs of the routing bundles. */
    lemma BridgeCarries()
      requires Valid() && |BridgeText(BridgeHead(site.bridge), routed)| < MAX_CMD_LEN
      ensures (exists v :: 1 <= v <= 4094 && RoutedBy(bundles, v)) ==>
                forall v :: v in bridgeTrunks <==> 1 <= v <= 4094 && RoutedBy(bundles, v)
    {
      hide LinksOk, DropsOk, AsicOk, DistinctNames, UniqueDevices, BridgeText, BridgeHead, BridgeTold, Shapely;
      BridgeToldIs(site.bridge, routed);
      ListOfRouted(routed);
    }

    /** The ASIC is as intended if and only if no command for the configuration fills the buffer. */
    lemma IntendedIff()
      requires Valid()
      ensures (forall a :: a in Configured() ==>
               On(asic, Configured()[a].name) == Entitled(Configured()[a], vlans, site)) <==>
              (forall a :: a in Configured() && Entitled(Configured()[a], vlans, site).Some? ==>
                 var c := Configured()[a];
                   |CommandText(site.bridge, c.name, Entitled(c, vlans, site).value)| < MAX_CMD_LEN)
      ensures var routed := RoutedVlans(Configured());
              BridgeTold(site.bridge, routed).Some? && bridgeTrunks == BridgeTrunks(routed) <==>
              Trunked(routed, None) == [] || |BridgeText(BridgeHead(site.bridge), routed)| < MAX_CMD_LEN
    {
      hide LinksOk, DropsOk, AsicOk, RoutingOk, DistinctNames, UniqueDevices, Entitled, Given, CommandText, BridgeTold,
        BridgeText,
        BridgeTrunks, Trunked, RoutedVlans, BridgeFits, NamedAfterPort, Printed;
      OutsideFollows();
      RoutedHere();
      BridgeIntendedIff(site, routed);
      var c := Configured();
      forall a | a in c
        ensures On(asic, c[a].name) == Entitled(c[a], vlans, site) <==>
                (Entitled(c[a], vlans, site).Some? ==>
                   |CommandText(site.bridge, c[a].name, Entitled(c[a], vlans, site).value)| < MAX_CMD_LEN)
      {
        assert Shaped(bundles[a], known);
        GivenIntendedIff(c[a], vlans, site);
      }
    }

    /** The kernel gets none of the switched traffic if and only if every member of every bundle on the
        ASIC has both its DROP rules. */
    lemma ShutOutIff()
      requires Valid()
      ensures ShutOut(Wanted(), site) <==>
              forall a :: a in bundles && bundles[a].name in asic ==>
                RulesOfMembers(bundles[a], known, inputDrop, forwardDrop)
    {
      hide LinksOk, AsicOk, DropsOk, RoutingOk, DistinctNames, UniqueDevices, Shapely, ShutOut, RulesOfMembers;
      ShutOutByRules(bundles, owner, known, asic, vlans, site, flagged, inputDrop, forwardDrop);
    }

    method Step(op: Op) returns (ok: bool)
      requires Valid()
      modifies this
      ensures ok <==> !Asked(old(Wanted()), op, known, site).stopped
      ensures ok ==> Valid() && Wanted() == Asked(old(Wanted()), op, known, site)
    {
      hide Sound, Shapely, ConfigOf, Handled, ConfigSet, WithoutPort, TooLong, Kept, BlockedBySet, BlockedByVlan,
        LinksOk;
      LinksHere();
      AllKept(flagged, bundles, owner, known);
      ok := true;
      match op {
        case SetBundle(aux, settings) =>
          if settings.None? || Handled(Configured(), vlans, known, site, aux, settings.value) {
            var rc;
            ok, rc := BundleSet(aux, settings);
          }
        case SetVlanBit(vid, add) =>
          if 0 <= vid < 4096 {
            ok := SetVlan(vid, add);
          }
        case RemovePort(p) =>
          PortGone(p);
      }
      if ok { ValidFits(); }
    }

    /** Any run of calls: the program is stopped exactly when some call asks for a configuration with a
        command longer than the buffer, and otherwise the outside tables are those of the configuration
        that the calls together asked for. */
    method Run(ops: seq<Op>) returns (ok: bool)
      requires Valid()
      modifies this
      ensures ok <==> !AskedAll(old(Wanted()), ops, known, site).stopped
      ensures ok ==>
                Valid() && Wanted() == AskedAll(old(Wanted()), ops, known, site) && AsicFollows(asic, Wanted(), site)
      ensures ok ==> TrunksFollow(site, RoutedVlans(Configured()), bridgeTrunks)
      ensures ok ==>
                DropsFollow(Wanted().blocked, known, inputDrop, forwardDrop) && Held(Wanted().blocked, Configured())
    {
      ghost var start := Wanted();
      hide Sound, Shapely, Asked, ConfigOf, AsicFollows, DropsFollow, Held, TrunksFollow, RoutedVlans, TooLong;
      assert ops[0..] == ops;
      for i := 0 to |ops|
        invariant Valid() && AskedAll(Wanted(), ops[i..], known, site) == AskedAll(start, ops, known, site)
      {
        assert ops[i..][0] == ops[i] && ops[i..][1..] == ops[i + 1..];
        ghost var next := Asked(Wanted(), ops[i], known, site);
        ok := Step(ops[i]);
        if !ok {
          StoppedForGood(next, ops[i + 1..], known, site);
          return;
        }
      }
      OutsideFollows();
      ok := true;
    }
  }

  // ---------------------------------------------------------------- a whole run, in the callers' terms

  /** Any run on an empty node: on a bridge, the ASIC has exactly the ports that the latest settings of
      each bundle ask for. */
  method RunFromEmpty(site: Site, known: map<PortId, PortInfo>, ops: seq<Op>) returns (n: Node, ok: bool)
    requires |site.bridge| < NAME_LIMIT && UniqueDevices(known)
    ensures n.site == site && n.known == known
    ensures var start := Want(map[], {}, {}, false);
            ok && !site.vrf ==>
              AllReflect(n.asic, n.Configured(), n.vlans, LatestAll(map[], start, ops, known, site), site)
  {
    hide Node.Sound, Shapely, ConfigOf, AsicFollows, AllStyled, AllReflect, TooLong, AskedAll, LatestAll;
    n := new Node(site, known);
    NothingAsked();
    var start := Want(map[], {}, {}, false);
    EmptyStyled(start);
    ok := n.Run(ops);
    if ok && !site.vrf {
      n.OutsideFollows();
      n.NamesShort();
      StyledAll(start, map[], ops, known, site);
      RunReflects(n.asic, n.Wanted(), LatestAll(map[], start, ops, known, site), site);
    }
  }

  // ---------------------------------------------------------------- a slave named twice

  /** A LAG with port 2 is set to have port 1, named twice, and keeps both. */
  method RepeatedSlaveRun() returns (n: Node)
    ensures n.Valid() && n.Configured() == map[5 := Lag({1, 2})]
  {
    hide Handled, ConfigSet, TooLong, Lag, LagSettings;
    var known := map[1 := PortInfo("eth1", false), 2 := PortInfo("eth2", false)];
    n := new Node(Site("br0", false), known);
    assert n.Configured() == map[];
    LagOfTwo(known, n.site);
    LagFits({2}, n.site);
    var ok, rc := n.BundleSet(5, Some(LagSettings([2])));
    LagSetTwice(known, n.site);
    LagFits({1, 2}, n.site);
    ok, rc := n.BundleSet(5, Some(LagSettings([1, 1])));
  }

  // ---------------------------------------------------------------- a member that comes late

  /** A LAG is on the ASIC with port 1; a postponed call gives it port 2 instead.  The ASIC still has
      the LAG, and port 2 has no DROP rule. */
  method LateMemberRun() returns (n: Node)
    ensures n.Valid() && n.Configured() == OneLag({2}) && "lag1" in n.asic
    ensures 2 in n.known && n.inputDrop[n.known[2].name] == 0 == n.forwardDrop[n.known[2].name]
  {
    hide Handled, ConfigSet, TooLong, OneLag, AccessLagSettings, Given, Kept, BlockedBySet, ConfigOf, Resolved,
      Node.Sound,
      Shapely, Switched;
    NothingAsked();
    var known := map[1 := PortInfo("eth1", false), 2 := PortInfo("eth2", false)];
    n := new Node(Site("br0", false), known);
    AccessLagOnAsic({1});
    FirstMember(known, n.site);
    assert {} + {7} == {7};
    var ok := n.SetVlan(7, true);
    assert n.vlans == {7} && n.flagged == {};
    var rc;
    ok, rc := n.BundleSet(5, Some(AccessLagSettings([1], 1)));
    AddLateMember(n);
  }

  method AddLateMember(n: Node)
    requires n.Valid() && TwoPorts(n.known) && n.site == Site("br0", false) && n.vlans == {7} && n.flagged <= {1}
    requires n.Configured() == OneLag({1})
    modifies n
    ensures n.Valid() && n.Configured() == OneLag({2}) && "lag1" in n.asic
    ensures n.inputDrop[n.known[2].name] == 0 == n.forwardDrop[n.known[2].name]
  {
    hide Handled, ConfigSet, TooLong, OneLag, AccessLagSettings, Kept, BlockedBySet, DropsFollow, AsicFollows, Held,
      Given,
      BridgeTold, RoutedVlans, ConfigOf, Resolved, Node.Sound, Shapely;
    AccessLagOnAsic({2});
    LateMember(n.known, n.site, n.flagged);
    var ok, rc := n.BundleSet(5, Some(AccessLagSettings([2], 2)));
    assert n.flagged == {};
    n.OutsideFollows();
    NamedLag(n.asic, n.flagged, {2});
    UnblockedPort(n.known, n.inputDrop, n.forwardDrop, 2);
  }
}
