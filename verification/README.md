# A verified model of the switch simulator's state keepers

The simulation provider keeps private state (maps, bitmaps, flags, counters) that has to agree with
tables it does not own: the ports of the "ASIC" Open vSwitch and the rule lists of the Linux kernel.
It changes those tables only by single commands, issued in many places. This project models the
parts of the provider that do so, with each outside table as a field of the modelled object and each
`system(...)` call as one step on it, and proves what the tables hold after every run of calls.

| file | what it models |
|---|---|
| `Bundles.dfy`, `Bridge.dfy` | bundles, VLANs, the ASIC's ports, the bridge's trunk list and the DROP rules of one node |
| `Intent.dfy` | what the settings of calls come to on the ASIC, said without the code's own terms |
| `Blocking.dfy` | over runs of calls, which ports the DROP rules keep from the kernel |
| `VlanList.dfy` | the VLAN list printed into a fixed 2048-byte command buffer, and the bridge's trunk command |
| `PortCommand.dfy` | the add-port command of a bundle, printed into the same buffer, and what the ASIC reads in it |
| `SflowCounters.dfy` | one interface's sFlow totals, computed from counters that are deleted and re-created under the poller |
| `SflowNet.dfy` | the same for all interfaces together, with polls that read the rules through `grep` |
| `SflowRules.dfy` | `set_sflow` on the VRF node: which NFLOG rules exist, and the order of the commands |
| `L3Rules.dfy` | the threads that install L3 counter rules, and the reader that adds them up by line position |
| `AclTable.dfy` | ACLs and port bindings in two hash tables that are scanned bucket by bucket |
| `MirrorTable.dfy` | the 32-slot mirror table and the registered bundles it refers to |
| `Cist.dfy` | the three-loop reconciliation of CIST ports with the database |
| `PortDump.dfy` | the resumable dump of a node's ports |

`dafny verify dfyconfig.toml` checks everything.

Where the code updates fields in place the model is a class with those fields and methods that do the
same, branch by branch. Each class has a `Valid` predicate that every method keeps and a specification
on plain values (`ConfigSet`, `Asked`, `PolledAs`, `Acted`, `Removal`, `After`, `Target`) that its methods
are proved against; the lemmas are about those values. `Run` methods execute an arbitrary list of calls.

A contract that goes through such a value says what the code does in the code's own terms. So the
main calls say it a second time, of their arguments and the tables alone: `Intent` for bundles,
`RulesAre` for sFlow rules, `Counts` for L3 figures, `Joins`, `Parts`, `AllJoin` and `AllPart` for ACL
bindings, `Mirrors`, `Foreign`, `Nameless` and `TakenOut` for mirrors, `StoredFrom`, `AllShown` and
`KernelShows` for CIST ports. No step of the model is defined through these.

## What the proofs found

- **Buffer.** The assertion after each `snprintf` admits `n == 2048`, one more than the buffer can
  hold with its terminator, and a longer text stops the program. Below 2048 nothing is lost
  (`Bridge.Node.IntendedIff`). At 2048 the bridge's trunk command loses its last digit, so VLAN 1398
  becomes 139 (`VlanList.BridgeToldIs`, `VlanList.BridgeTextFillsBuffer`); if 139 is routed too, the list
  names it twice and is refused (`VlanList.BridgeTextRefused`). A bundle's add-port command
  loses the last letter of its mode, so the ASIC refuses it and the bundle is not programmed
  (`PortCommand.ToldIs`, `PortCommand.CommandFillsBuffer`). `Bridge.Node.Run` takes both commands through
  the buffer and says exactly when the program is stopped (`VlanList.BridgeTextTooLong`,
  `PortCommand.CommandTooLong`).
- **DROP rules.** A port's rules come when its bundle is programmed and go when it leaves the bundle
  (`Blocking.BlockedIff`). So the kernel gets none of the traffic that the ASIC switches, unless a
  postponed call gives a new member to a LAG that is on the ASIC already: that port has no rule
  (`Bridge.LateMemberRun`), and this is the only way (`Blocking.ShutOutThroughoutIff`).
- **sFlow polls.** A poll between the reset note and the re-added rules is harmless, as intended. A
  poll *during* the removal of all SFLOW rules need not be: what is left of the counters can be added to
  the totals a second time (`SflowCounters.SweepDoubleCounts`). `Harmless` is what a poll has to be, and
  the totals are exact all along if and only if every poll is (`SflowCounters.ExactThroughoutIff`). The
  removal of a single interface's rules is safe because polling is switched off first.
- **sFlow names.** A poll takes its interface's name as a `grep` pattern, so interface "1" also reads the
  rules of "10", and takes their withdrawal for a restart of its own
  (`SflowNet.WithdrawalCountsAgain`). Harmless polls keep an interface's totals exact in every run if and
  only if its name matches the beginning of no other sampled name (`SflowNet.ExactIffAlone`).
- **L3 reader.** It is right in every reachable state unless a removal is under way and its listing has
  an odd number of lines; then unicast and multicast are exchanged on the `-i` side, and the last line
  is added to the wrong sum on the `-o` side (`L3Rules.ReaderAgainstTypes`, `L3Rules.ReaderRightIff`,
  `L3Rules.MisreadRun`).
- **Bundle members.** Comparing list sizes before pruning is enough for distinct slaves, but a slave
  named twice hides a port that should have left (`Bridge.RepeatedSlaveRun`; `Bundles.SettledRightIff`
  gives the condition).
- **ACL buckets.** Scans compare list ids by hash bucket. Removing a list takes only its own bindings
  if and only if no binding of another list in its bucket is on one of the interfaces
  (`AclTable.RemovesOwnIff`), and its ACL goes exactly when nothing is left in the bucket, whoever it
  belonged to (`AclTable.ListGoesIff`, `AclTable.SharedBucketRun`). The number of ACEs is counted in 16
  bits, so the 512 limit is a real one only below 65536 entries (`AclTable.WrappedCountRun`).
- **Mirrors.** Unregistering a bundle leaves a reference exactly in the mirrors that have it as a source
  and as a destination (`MirrorTable.StillRefers`, `MirrorTable.DanglingRun`). Over runs,
  `MirrorTable.KnownThroughoutIff` says when no reference ever dangles. A changed mirror without an
  output, or with a source or destination that is no bundle, crashes the program
  (`MirrorTable.MBridge.Set`, `MirrorTable.NoOutputRun`).
- **CIST.** `nb_ports` is the number of ports if and only if in every call the rows that are new have a
  state the decoder accepts, because a port is inserted before its state is decoded and counted after
  (`Cist.MstpInstance.Run`, `Cist.UndecodableRun`).

## Model

| member | source | states |
|---|---|---|
| `Bridge.Node.Run` | src/ofproto-sim-provider.c:726-993 | A run of `bundle_set`, `set_vlan` and port removals stops the program exactly if some call asks for a configuration with a command longer than the buffer; otherwise the ASIC holds exactly the ports that the configuration asked for by the calls together entitles, as read from the printed commands, the bridge's trunk list is the one read from its command for the routed VLANs unless that was refused, and a port has both DROP rules, once, exactly if it is in the set of ports that the calls keep from the kernel |
| `Bridge.RunFromEmpty` | src/ofproto-sim-provider.c:726-993 | After any run on an empty bridge: each ordinary bundle has a port on the ASIC exactly if the settings that last set it up call for one under the enabled VLANs and the command is shorter than 2048; its mode is theirs, its tag their VLAN unless it is a trunk, and it trunks v if and only if v is in 1..4094, enabled, and in their trunk list if they have one; a bundle that was never set up has none, and there is no other port |
| `Intent.RunReflects` | src/ofproto-sim-provider.c:588-722 | The same for any table that follows from what was asked for |
| `Intent.StyledAll` | src/ofproto-sim-provider.c:889-910 | Over any run each ordinary bundle has the mode, VLAN and trunk list of the settings that last set it up, and those of a new bundle if all its calls were postponed |
| `Intent.DesiredServes` | src/ofproto-sim-provider.c:640-703 | Enabled VLANs and settings call for a port exactly if one is printed, and the port printed is the one they ask for |
| `Intent.OnePortServes` | src/ofproto-sim-provider.c:640-703 | The settings and the enabled VLANs leave no choice of port |
| `Intent.SetTakes` | src/ofproto-sim-provider.c:726-914 | What a call of `bundle_set` does to the configuration, in terms of its settings: who goes, who is untouched, and the name, members, kind, routed VLAN, LAG flag and set-up of the bundle |
| `Blocking.BlockedIff` | src/ofproto-sim-provider.c:711-721 | Over any run a port is in that set if and only if some call programmed its bundle (or it was in the set before) and it has stayed in the bundle since |
| `Blocking.ShutOutThroughoutIff` | src/ofproto-sim-provider.c:879-891 | Over any run: at every moment all ports of all bundles on the ASIC are in the set, if and only if no postponed call gives a known port that is not a member yet to a bundle on the ASIC |
| `Blocking.StepShutsOut` | src/ofproto-sim-provider.c:879-914 | The same for one call, whatever it is |
| `Bridge.Node.ShutOutIff` | src/ofproto-sim-provider.c:403-432 | In a valid state this is what the tables say: every member of every bundle that has a port on the ASIC has one rule in INPUT and one in FORWARD |
| `Bridge.LateMemberRun` | src/ofproto-sim-provider.c:879-891 | A LAG on the ASIC is set to another port in a postponed call: it is still on the ASIC and its member has no DROP rule |
| `Bridge.Node.IntendedIff` | src/ofproto-sim-provider.c:480-722 | In every valid state the ASIC has each bundle's tag, trunk set and mode as the enabled VLANs and the settings entitle it to if and only if no bundle's command fills the buffer, and the bridge has accepted the list of the routed VLANs if and only if its command does not |
| `Bundles.OnlyTheConfigurationMatters` | src/ofproto-sim-provider.c:588-722 | Two ASIC tables that follow from one configuration are equal: history makes no difference |
| `Bridge.Node.OutsideFollows` | src/ofproto-sim-provider.c:407-534 | In every valid state the ASIC table, the bridge's trunk list unless it was refused, and the DROP rules are functions of what was asked for, and ports with rules are in bundles |
| `Bundles.AsicFollowsBundles` | src/ofproto-sim-provider.c:588-722 | Every ordinary bundle's entry is what the ASIC reads in the command for its tag, trunk set and mode, or none if its VLANs are not enabled; no other port is there |
| `Bundles.RoutedFollowsBundles` | src/ofproto-sim-provider.c:844-855 | The bitmap of routed VLANs is exactly the VLANs of the bundles with routing enabled |
| `Bundles.GivenIntendedIff` | src/ofproto-sim-provider.c:684-703 | A bundle whose command passes the assertions gets the port it is entitled to if and only if the command, if there is one, is shorter than 2048 |
| `Bundles.BridgeIntendedIff` | src/ofproto-sim-provider.c:508-528 | The bridge's port gets the list of the routed VLANs, or 0, if and only if there are none or the command is shorter than 2048 |
| `Bundles.DropsFollowBundles` | src/ofproto-sim-provider.c:387-452 | A flagged port has one INPUT and one FORWARD rule and is in a bundle, and any other port has none |
| `Bundles.StayingIsKept` | src/ofproto-sim-provider.c:435-477 | The ports that keep their flag are exactly those that are in the same bundle before and after |
| `Bridge.Node.BundleSet` | src/ofproto-sim-provider.c:726-914 | The call changes the configuration as `ConfigSet` says (members taken, repeated slaves and all, emptied bundles gone, settings adopted or postponed), returns EINVAL exactly when no slave resolves, keeps the outside tables in step, flags exactly the ports that stay in their bundle and those of the bundle if that is programmed, and is stopped by an assertion exactly when the new configuration has a command that is too long. In terms of the settings alone: the configuration is taken from them as in `Intent.SetTakes`, the flags are those of ports that stay and of an ordinary bundle's ports unless the call is postponed, and the ASIC's port is as they ask |
| `Bridge.Node.SetMembers` | src/ofproto-sim-provider.c:782-804 | Adding the slaves and pruning gives exactly the resolved slaves unless a repeated slave spares the list; other bundles are untouched or gone; ports that change bundle lose their flag; the final assertion holds |
| `Bundles.DistinctSlavesSettle` | src/ofproto-sim-provider.c:792-804 | With distinct slaves the list is right even when the size comparison skips the pruning loop |
| `Bundles.SettledRightIff` | src/ofproto-sim-provider.c:792-804 | For any slaves: the list is right if and only if it is pruned or the slaves that resolve are as many as the slaves |
| `Bundles.RepeatedSlaveKeepsLeftover` | src/ofproto-sim-provider.c:792-804 | For any two known ports, naming the first twice where the second was a member leaves both, though only the first resolves |
| `Bridge.RepeatedSlaveRun` | src/ofproto-sim-provider.c:782-804 | A LAG with port 2 is set to have port 1, named twice, and the node ends in a valid state with both as members |
| `Bridge.Node.AddPort` | src/ofproto-sim-provider.c:455-477 | A port joins at most one list; the bundle that loses it is destroyed; unknown ports change nothing |
| `Bridge.Node.Prune` | src/ofproto-sim-provider.c:793-802 | What stays in the list is exactly what was there and is a slave |
| `Bridge.Node.DelPort` | src/ofproto-sim-provider.c:435-452 | The port leaves its list and back pointer, and both its DROP rules go with the flag |
| `Bundles.LinksDel` | src/ofproto-sim-provider.c:435-452 | Taking a port out keeps lists duplicate-free, disjoint and in agreement with the back pointers |
| `Bundles.GatherStep` | src/ofproto-sim-provider.c:455-477 | One more slave: the bundles it was taken from are gone and no other bundle changes |
| `Bridge.Node.Destroy` | src/ofproto-sim-provider.c:538-585 | The bundle, its ASIC port, its routed VLAN and all its back pointers are gone, and every other bundle is as before |
| `Bridge.Node.Remove` | src/ofproto-sim-provider.c:946-959 | A non-LAG port takes its bundle with it; a LAG is left alone |
| `Bridge.Node.Configure` | src/ofproto-sim-provider.c:588-722 | It is stopped exactly when the bundle's command is too long; otherwise the bundle's ASIC port is brought in step whatever it was, no other bundle's is touched, and all its ports get their DROP rules |
| `Bundles.MembersNotOnAsic` | src/ofproto-sim-provider.c:623-631 | The del-port commands for the members of a bond find nothing to delete |
| `Bundles.AsicProgrammed` | src/ofproto-sim-provider.c:596-709 | Deleting and re-adding one port makes the table right for that bundle and keeps it right for the rest |
| `Bridge.Node.Issue` | src/ofproto-sim-provider.c:633-709 | Printing and running the add-port command: stopped exactly when the text is too long, else the port is what the ASIC reads in the buffer, and the bundle is marked as added only if the ASIC accepted it |
| `Bridge.Node.VlanRoutingUpdate` | src/ofproto-sim-provider.c:480-534 | The bitmap changes by one VLAN, the assertion stops the program exactly when the text is longer than 2048, and otherwise the bridge's trunk list is what is read in the command for the bitmap, or what it was if that is refused or there was nothing to do |
| `Bridge.Node.BridgeCarries` | src/ofproto-sim-provider.c:480-534 | With a command shorter than 2048 the bridge's port trunks v if and only if v is in 1..4094 and a routing bundle has it, if there is such a v |
| `Bundles.RoutingAdd` | src/ofproto-sim-provider.c:844-855 | Enabling routing on a bundle keeps bitmap and owners in agreement, also when repeated |
| `Bundles.RoutingDel` | src/ofproto-sim-provider.c:562-569 | So does destroying a bundle, routed or not |
| `Bridge.Node.SetVlan` | src/ofproto-sim-provider.c:962-993 | Only the VLAN set changes; every ordinary bundle is brought in step and all its ports are flagged, or the program is stopped exactly when a bundle has too long a command under the new set; the early returns need no work; if the VLANs change on a bridge, exactly the flagged ports and the members of ordinary bundles are flagged |
| `Bridge.Node.PortGone` | src/ofproto-sim-provider.c:946-959 | Exactly the bundle that holds the port goes, unless it is a LAG, and ports keep their flag exactly if they stay in a bundle |
| `Bundles.AsicVlans` | src/ofproto-sim-provider.c:923-943 | Bundles skipped by the reconfiguration cannot be out of step |
| `Bridge.Node.BlockKernel` | src/ofproto-sim-provider.c:711-721 | Every port of the bundle is flagged, and DROP rules stay paired with the flags |
| `Bridge.Node.Adopt` | src/ofproto-sim-provider.c:812-914 | Which of routing interface, bridge port, VRF port, postponed LAG or L2 port a bundle becomes, and what it takes on |
| `Bundles.ConfigGathered` | src/ofproto-sim-provider.c:734-810 | Opening a bundle and gathering its members is the configuration step `ConfigSet` describes |
| `VlanList.PrintedListReadsBack` | src/ofproto-sim-provider.c:660-681 | For every VLAN set and trunk list, a decimal-list reader recovers exactly the selected VLANs of 1..4094, ascending |
| `VlanList.ReadBack` | src/ofproto-sim-provider.c:660-681 | The printer and the reader are inverse on every list of numbers |
| `VlanList.PrintTrunks` | src/ofproto-sim-provider.c:660-681 | Throughout the loop `n` is the length of the ideal text and the buffer its truncation; the assertion passes exactly when the ideal text is at most 2048 long |
| `VlanList.Snprintf` | src/ofproto-sim-provider.c:666-676 | Appending at an offset of a full or nearly full buffer |
| `VlanList.BridgeTrunkCommand` | src/ofproto-sim-provider.c:508-528 | The assertion passes exactly when the ideal text is at most 2048 long, and the command is then the text clipped to the buffer, with 0 for no VLAN |
| `VlanList.BridgeToldIs` | src/ofproto-sim-provider.c:508-528 | What the ASIC reads in the bridge's command: the routed VLANs or 0, but at exactly 2048 characters the last VLAN is cut by a digit, and the list is refused if what is left is in it already |
| `VlanList.BridgeTextFillsBuffer` | src/ofproto-sim-provider.c:508-528 | Routing VLANs 1000 to 1398 on a bridge named with five letters gives exactly 2048 characters: VLAN 139 is in the ASIC's list and 1398 is not |
| `VlanList.BridgeTextRefused` | src/ofproto-sim-provider.c:508-528 | Routing VLANs 139 and 1000 to 1397 on a bridge named with six letters gives exactly 2048 characters and a list that names 139 twice |
| `VlanList.BridgeTextTooLong` | src/ofproto-sim-provider.c:520 | Routing one VLAN more than fills the buffer makes the assertion stop the program |
| `VlanList.FewerFit` | src/ofproto-sim-provider.c:562-569 | Routing fewer VLANs never makes the command too long, so destroying a bundle cannot stop the program |
| `VlanList.TrunkTextLength` | src/ofproto-sim-provider.c:660-681 | Seven characters and five a VLAN bound the text, and four-digit VLANs reach the bound |
| `VlanList.AssertionAdmitsOneLostDigit` | src/ofproto-sim-provider.c:508-528 | For any text that ends with the list and passes the assertion: the list itself is read below 2048 characters; at 2048 the last VLAN v is read as v / 10, or the list does not read back if v is a single digit |
| `PortCommand.AddPortCommand` | src/ofproto-sim-provider.c:633-703 | The command printed through the buffer, with its assertions after each piece: it is stopped exactly when the whole text is longer than 2048, there is a command exactly when the VLANs entitle the bundle to a port, and it is the whole text clipped to the buffer |
| `PortCommand.OptionsReadBack` | src/ofproto-sim-provider.c:640-703 | A reader that takes the options apart word by word recovers tag, trunk list and mode of every port that is printed |
| `PortCommand.CommandReadsBack` | src/ofproto-sim-provider.c:633-703 | The whole add-port command reads back as its bridge, its bundle and its port, for names without spaces |
| `PortCommand.BridgeCommandReadsBack` | src/ofproto-sim-provider.c:508-528 | The bridge's command reads back as the bridge and the VLANs, or 0 |
| `PortCommand.ModesLiterally` | src/ofproto-sim-provider.c:684-703 | The four modes' texts letter by letter |
| `PortCommand.NumbersLiterally` | src/ofproto-sim-provider.c:640-681 | A tag's and a trunk list's text letter by letter |
| `PortCommand.CutOptionsUnread` | src/ofproto-sim-provider.c:684-703 | Without their last letter the options are refused, for each of the four modes |
| `PortCommand.ToldIs` | src/ofproto-sim-provider.c:633-709 | What the ASIC gets: the port itself if the text is shorter than 2048, and nothing if it fills the buffer |
| `PortCommand.ShortListFits` | src/ofproto-sim-provider.c:633-703 | A bound on names and number of VLANs that keeps the whole command, mode included, shorter than the buffer |
| `PortCommand.CommandFillsBuffer` | src/ofproto-sim-provider.c:633-703 | Trunking VLANs 1000 to 1391 gives exactly 2048 characters: every assertion passes and the ASIC refuses the command |
| `PortCommand.CommandTooLong` | src/ofproto-sim-provider.c:684-700 | Trunking one VLAN more makes the assertion stop the program |
| `SflowCounters.NetdevSim.UpdateSflowStats` | src/netdev-sim.c:410-462 | One poll advances both totals by the deltas, or by whole readings after a reset or a drop, and forgets the reset |
| `SflowCounters.TotalsExactOnEveryRun` | src/netdev-sim.c:410-462 | For any interleaving of traffic, rule commands, resets and harmless polls, inside sweeps too, the totals are the sum over rule epochs of each epoch's last reading, modulo 2^64 |
| `SflowCounters.ExactMeans` | src/netdev-sim.c:410-462 | Exact totals are, for packets and bytes of both directions, what is due modulo 2^64 |
| `SflowCounters.ExactThroughoutIff` | src/netdev-sim.c:410-462 | With polls anywhere, the totals are exact after every step of a run if and only if every poll in it is harmless; the first harmful one makes them wrong |
| `SflowCounters.DeltasDoNotUnderflow` | src/netdev-sim.c:427-452 | When a harmless poll subtracts, inside a sweep or outside, both readings are at least the previous ones |
| `SflowCounters.PollExactIff` | src/netdev-sim.c:410-462 | A poll keeps exact totals exact if and only if no sweep is under way, or a reset is noted, or nothing would be counted twice or lost |
| `SflowCounters.SweepDoubleCounts` | src/ofproto-sim-provider.c:1734-1742 | A run in which such a poll counts one of two packets twice |
| `SflowCounters.AcceptedControlsAreOpen` | src/ofproto-sim-provider.c:1979-2029 | Any interleaving of the control path's command order with readable traffic and polls at any time is one of the runs above |
| `SflowCounters.LegalRunKeeps` | src/netdev-sim.c:1402-1417 | The invariant linking rules, previous readings and reset notes holds after every run with harmless polls |
| `SflowCounters.MeterExactIff` | src/netdev-sim.c:427-460 | A 64-bit total stays exact in a poll if and only if the reading contributes no excess |
| `SflowNet.ExactIffAlone` | src/netdev-sim.c:374-407 | With all sampled interfaces together, harmless polls keep an interface's totals exact in every run if and only if its name, as a pattern, matches the beginning of no other sampled name |
| `SflowNet.RunsAlone` | src/netdev-sim.c:374-407 | An interface with such a name goes through the run of its own events, whatever the others do |
| `SflowNet.WithdrawalCountsAgain` | src/netdev-sim.c:374-462 | A run with interfaces "1" and "10" in which withdrawing "10" makes "1" count three packets where one is due |
| `SflowNet.HeardIsCounted` | src/netdev-sim.c:374-407 | For any two names of which one matches the other: a packet of the other interface is counted |
| `SflowNet.NetInOrder` | src/ofproto-sim-provider.c:1979-2029 | If each interface's commands come in an accepted order, any interleaving of all of them is such a run |
| `SflowRules.VrfNode.SetSflow` | src/ofproto-sim-provider.c:2161-2218 | After each call, with a target and a rate, every rule of an enabled bundle's interface at that rate is there once and no other is; without, there is none; whatever was installed before |
| `SflowRules.FollowAre` | src/ofproto-sim-provider.c:2161-2218 | The rules that follow from a call are those |
| `SflowRules.VrfNode.Run` | src/ofproto-sim-provider.c:1718-2218 | After any run of `set_sflow` and bundle changes, accepted or refused, the rules are one four-rule group for each interface enabled at the last accepted call, at that call's rate, and none if sFlow is off |
| `SflowRules.VrfNode.IptablesReconfigure` | src/ofproto-sim-provider.c:1979-2029 | The port set becomes the enabled bundles, and rules and flags follow it |
| `SflowRules.VrfNode.IptableDel` | src/ofproto-sim-provider.c:1899-1955 | Deleting by rate finds all four rules of a port or says so, stopping at the first that is missing |
| `SflowRules.VrfNode.IptableDelAll` | src/ofproto-sim-provider.c:1734-1742 | Every SFLOW rule goes, one command at a time |
| `SflowRules.VrfNode.Disable` | src/ofproto-sim-provider.c:1767-1791 | A disabled node has no rule and no configuration, so no accepted configuration compares equal to it |
| `SflowRules.CommandsKeepTotalsExact` | src/ofproto-sim-provider.c:1979-2029 | The commands `set_sflow` issues for an interface, interleaved with polls and traffic in any way, keep the totals over its own rules exact all along if and only if every poll is harmless |
| `SflowRules.CommandsKeepNetExact` | src/ofproto-sim-provider.c:1979-2029 | So too with all interfaces together and polls through `grep`, for an interface whose name matches the beginning of no other |
| `SflowRules.SweepOne` | src/ofproto-sim-provider.c:1734-1742 | Each removal of the sweep is a step the counters' protocol accepts |
| `SflowRules.SweepBegins` | src/ofproto-sim-provider.c:1734-1742 | The sweep starts from exactly the four-rule groups |
| `L3Rules.Kernel.Step` | src/netdev-sim.c:941-1096 | One check or command of a device's thread acts as the script says; other devices' and foreign rules keep their order |
| `L3Rules.Kernel.Run` | src/netdev-sim.c:941-1109 | After every interleaving of threads, traffic and foreign edits no device has a rule twice, and every enabled device with no removal under way reads its unicast and multicast counters right |
| `L3Rules.NeverTwice` | src/netdev-sim.c:941-981 | In every state a thread can be in, its device's rules are without duplicates |
| `L3Rules.Kernel.CreateThenDelete` | src/netdev-sim.c:1025-1096 | Create then delete is the identity on the rule list |
| `L3Rules.ActedOk` | src/netdev-sim.c:941-1022 | No step makes a duplicate, and FORWARD pairs are complete between calls |
| `L3Rules.AppendViews` | src/netdev-sim.c:941-981 | Adding a rule adds it to its own device's view and to no other's |
| `L3Rules.DeleteViews` | src/netdev-sim.c:984-1022 | Deleting removes one rule from its own device's view and nothing from any other's |
| `L3Rules.InstalledIff` | src/netdev-sim.c:907-938 | The check command answers whether the rule is in the device's view |
| `L3Rules.ParseXtablesL3Stats` | src/netdev-sim.c:1280-1327 | The reader adds lines one and three, and two and four |
| `L3Rules.ReaderAgainstTypes` | src/netdev-sim.c:1280-1327 | What the positional sums are in terms of the sums by packet type, in every reachable state of an enabled device |
| `L3Rules.ReaderRightIff` | src/netdev-sim.c:1280-1327 | The reader is right if and only if the listing has an even number of lines or the misplaced counters make no difference |
| `L3Rules.MisreadRun` | src/netdev-sim.c:1280-1327 | A device is enabled, a multicast packet is counted, the removal takes one rule: the reader is wrong |
| `L3Rules.SettledReadersRight` | src/netdev-sim.c:1280-1392 | While no removal is under way all readers of an enabled device are right |
| `L3Rules.Kernel.GetKernelL3Stats` | src/netdev-sim.c:1330-1392 | Each of the 24 figures, v4, v6 and both together, is one sum of packets or of bytes over the device's rules of that direction and packet type |
| `L3Rules.TrueCounts` | src/netdev-sim.c:1381-1389 | Adding the two families' figures is that sum over both |
| `L3Rules.ThreadCosts` | src/netdev-sim.c:907-1096 | A create on a device without rules takes twelve checks and sixteen commands and puts the script's rules behind all others; a create or a delete with nothing to do takes twelve checks |
| `L3Rules.SuffixTypes` | src/netdev-sim.c:1035-1047 | The types in one chain and direction are unicast then multicast, or what the script has left of them |
| `AclTable.Classifier.CurrentAceCount` | src/ops-classifier-sim.c:299-309 | The loop's count is the sum of ACE counts modulo 2^16 |
| `AclTable.GuardKeepsCapacity` | src/ops-classifier-sim.c:321-340 | An admitted list keeps the total within 512 if and only if the true total was below 65536 |
| `AclTable.Classifier.Apply` | src/ops-classifier-sim.c:470-572 | When the ACL is created, each return code's exact condition (a new list is turned away exactly if the 16-bit count is 512 or more or the list would pass 512), that every interface is then bound in the direction, and that each new binding is for one of them, the list and the bundle |
| `AclTable.WrappedCountRun` | src/ops-classifier-sim.c:299-340 | List updates bring the true total to 65536, and one more list is let in |
| `AclTable.Classifier.Remove` | src/ops-classifier-sim.c:576-634 | What goes has a list id of the same hash bucket and the name of one of the interfaces; from each interface with such a binding one goes; the ACL goes exactly if there is an interface and no binding in its bucket is left |
| `AclTable.Classifier.LagUpdate` | src/ops-classifier-sim.c:637-743 | The exact success condition; a port that joins is bound afterwards, by one new binding for the list and the bundle if the scan met none and by no change otherwise; from a port that leaves one of the bindings met goes, if there is one |
| `AclTable.BindingsJoin` | src/ops-classifier-sim.c:526-562 | The loop over a bundle's ports leaves every one of them bound |
| `AclTable.RemovalParts` | src/ops-classifier-sim.c:609-625 | The removal loop in terms of hash and interface name |
| `AclTable.Classifier.Replace` | src/ops-classifier-sim.c:746-769 | Removal followed by application: what both tables hold afterwards in each outcome, with the capacity kept |
| `AclTable.Classifier.Run` | src/ops-classifier-sim.c:470-783 | Over any run every binding names a stored ACL and keys are unique; without list updates the total stays at most 512 |
| `AclTable.Classifier.ApplyThenRemove` | src/ops-classifier-sim.c:470-634 | Apply then remove restores both tables if the ACL was absent and its bucket empty |
| `AclTable.RemovesOwnIff` | src/ops-classifier-sim.c:609-625 | Every outcome of removing a list takes only its own bindings if and only if no binding of another list in its bucket is on one of the interfaces |
| `AclTable.ListGoesIff` | src/ops-classifier-sim.c:609-631 | The ACL goes with the removal if and only if there is an interface and every binding in its bucket, of whatever list, is on one of them and the only one there; otherwise it stays, also without a reference |
| `AclTable.GrowthSplits` | src/ops-classifier-sim.c:526-562 | Growing a table only splits buckets, for any hash function |
| `AclTable.RoundTrip` | src/ops-classifier-sim.c:526-631 | Removing from an otherwise empty bucket undoes exactly the bindings the application made |
| `AclTable.SharedBucketRun` | src/ops-classifier-sim.c:470-634 | Two lists of one bucket are applied to one interface and the second is removed: both ACLs are there and one of them has no binding |
| `AclTable.TotalInsert` | src/ops-classifier-sim.c:411-424 | Creating an ACL adds its entries to the total |
| `MirrorTable.MBridge.Set` | src/ofproto-sim-provider.c:997-1290 | The table is a partial map of at most 32 keys, and what each call makes of it is given for every input. A mirror that is set has as sources exactly the registered bundles its source references name, likewise as destinations, and as output the bundle named, if there is one. EFBIG exactly for a new key on a table of 32, EINVAL exactly for a reference to another bridge or an unregistered output, the crash exactly when a changed mirror has no output or a source or destination that is no bundle; first free slot used, failed creates change nothing, failed modifies remove that key only, equal settings change nothing |
| `MirrorTable.MeantMirrors` | src/ofproto-sim-provider.c:1083-1137 | The configuration that the code resolves is the one the settings name, or none exactly if they are turned away |
| `MirrorTable.NoOutputRun` | src/ofproto-sim-provider.c:1215-1218 | A mirror of a registered bundle without an output crashes the program |
| `MirrorTable.MBridge.Destroy` | src/ofproto-sim-provider.c:1323-1352 | Exactly that key is removed and `has_mirrors` recomputed |
| `MirrorTable.MBridge.Unregister` | src/ofproto-sim-provider.c:145-168 | A mirror goes exactly if it outputs to the bundle; any other keeps its key, slot, output and all other sources and destinations, and loses the bundle from its sources or, if it is none, from its destinations; no mirror refers to it afterwards if and only if none had it on both sides |
| `MirrorTable.StillRefers` | src/ofproto-sim-provider.c:145-168 | The same for one mirror |
| `MirrorTable.MBridge.Run` | src/ofproto-sim-provider.c:122-168 | Any run makes the table, the bundles and the registrations what the calls one after another make of them as maps, or crashes exactly when one of those calls does; slot `i` holds a mirror of index `i`, keys are distinct, and `has_mirrors` implies an occupied slot |
| `MirrorTable.KnownThroughoutIff` | src/ofproto-sim-provider.c:122-168 | Over any run no reference is ever left to an unregistered bundle if and only if no bundle is unregistered while a mirror with another output has it on both sides |
| `MirrorTable.DanglingRun` | src/ofproto-sim-provider.c:145-168 | A mirror of one bundle in both directions still refers to it after it is unregistered |
| `MirrorTable.MBridge.Lookup` | src/ofproto-sim-provider.c:1293-1305 | Finds a key's slot if and only if the key is in the table |
| `MirrorTable.MBridge.Scan` | src/ofproto-sim-provider.c:1355-1365 | Finds the first free slot, or none exactly when the table is full |
| `MirrorTable.TableSize` | src/ofproto-sim-provider.c:1355-1365 | The map has 32 keys if and only if all slots are taken |
| `MirrorTable.TableSet` | src/ofproto-sim-provider.c:1019-1045 | Writing a slot is the map update of its key |
| `Cist.MstpInstance.ConfigurePorts` | src/sim-stp-plugin.c:494-582 | From any prior state the ports are those the rows name, each with the first row to name it; when all their states are "Blocking", "Disabled", "Learning" or "Forwarding" the stored state is 4, 0, 2 or 3, and so is the kernel's; a new port with another state gets 5; ports that go leave the bridge; and a second call with the same rows does nothing |
| `Cist.MstpInstance.Run` | src/sim-stp-plugin.c:431-582 | Over any run the last call decides the ports and, if their states are the database's, the stored numbers, and the kernel's if all calls' rows are so; `nb_ports` is the number of ports if and only if it was before and in every call the rows whose names are new since the call before decode |
| `Cist.DecodeShows` | src/sim-stp-plugin.c:154-176 | Which strings decode, and to which numbers |
| `Cist.FollowsStored` | src/sim-stp-plugin.c:494-582 | The three loops' result in the database's words |
| `Cist.MstpInstance.AddNew` | src/sim-stp-plugin.c:543-550 | The second loop inserts every new row and counts exactly those that decode, so that the count stays right if and only if all of them do |
| `Cist.UndecodableRun` | src/sim-stp-plugin.c:431-582 | A port with an undecodable state comes and goes, and `nb_ports` is negative |
| `Cist.ThreeLoops` | src/sim-stp-plugin.c:494-582 | Delete, add and update compose to the database's map |
| `Cist.FirstRowCounts` | src/sim-stp-plugin.c:511-528 | Of rows with one name the first is used |
| `Cist.MstpInstance.UpdateStates` | src/sim-stp-plugin.c:553-577 | The third loop stops at an undecodable state and otherwise restates every port |
| `PortDump.Dump.All` | src/ofproto-sim-provider.c:1504-1562 | A dump over unchanged sets terminates and reports the known ports, then the known ghost ports |
| `PortDump.Dump.Next` | src/ofproto-sim-provider.c:1512-1550 | Each call reports the next known name, switching sets inside the call, and EOF exactly at the end |
| `PortDump.DumpIsExact` | src/ofproto-sim-provider.c:1512-1550 | Each known name is reported once for each set that holds it, with its device type and its OpenFlow number or 65535, and no other name is |

## Left out

- Bridge.Node.BundleSet: the calls it requires to be `Handled` leave out transitions the code does not carry out cleanly: `hw_bond_should_exist` dropped on a live LAG (the code destroys the bundle and goes on using it), taking a port from a LAG, renaming a bundle while it is programmed or to a name in use, changing its kind while it is programmed, changing a routed VLAN or routing one that another bundle routes, and a bundle named after an interface that would get another member. Slaves may be repeated or missing. Names of 256 characters or more are excluded.
- Bridge.Node.Run: the VLAN of a VLAN interface is taken to be in 1..4095, as the code indexes its bitmap with it; when an assertion stops the program nothing is said about the state left behind; and while a command for the bridge is refused, the list that it keeps is described by `VlanRoutingUpdate` alone, not as a function of the configuration.
- Bridge.Node.Configure: the return for an empty port list is not modelled, because no bundle is left with one.
- SflowRules.VrfNode.SetSflow: a repeated configuration requires that every sampled port still has a bundle, because the code dereferences the missing bundle otherwise.
- SflowRules.VrfNode.Run: one VRF node only, because the removal of all SFLOW rules is global; the reset counter's wrap after 2^32 resets between polls and readings of more than 15 digits are outside the model. The sweep command (src/ofproto-sim-provider.c:1737) lacks the network-namespace prefix of every other rule command; the model takes both to act on one table, and does not say what happens if they differ.
- SflowNet.ExactIffAlone: of what `grep` makes special in a pattern only the dot is modelled, and rule text other than the interface option is taken not to match; the condition is on the names alone, and whether a given run goes wrong depends on what the matching interface does in it.
- L3Rules.Kernel.Start: a thread that finds nothing to do keeps the mutex; safety is proved, liveness is not claimed.
- AclTable.Classifier.Remove: which of several bindings in a bucket is found first is left open, as it depends on the order inside the hash table.
- AclTable.Classifier.LagUpdate: if several ports of a bundle had one OpenFlow number, which of them is taken is left open.
- MirrorTable.MBridge.Set: the command text and the ASIC's own mirrors are left out; "too long" and "the command fails" are inputs. `has_mirrors` is not implied by an occupied slot, because a first create without sources and destinations returns early. When the program crashes nothing is said about the state left behind.
- Cist.MstpInstance.Add: whether the kernel bridge accepts the first port is an input, because of `br_set`'s return convention.
- Commands: except for the mirror command, every `system` and `popen` command is assumed to succeed; sockets, ioctl, logging, file writes and daemons are left out.
- Objects: bundles, ports and bindings are records in maps and sets, so aliasing and memory management are not modelled; hash maps are maps except for the ACL buckets.
- The ports a node can resolve are fixed for the life of the modelled node.
- The L3 threads that `bundle_add_port` starts on a VRF node are modelled on their own, not as part of the bundle.
- The ovs-vsctl commands other than the two that carry a VLAN list have no text in the model; how the ASIC reads those two is a word-by-word reader of the options they use, which refuses a VLAN list that names a VLAN twice.
- OVSREC state strings and `OFPP_NONE` come from libraries that are not part of this repository; the usual values are used.
- ACL statistics arrays, QoS and COPP classes, stub class functions and plug-in registration: they would only add easy members.
- The hostsflow agent's configuration file, the CIST's VLAN and instance data, and netdev attributes other than the counters.
