# The agent's network control plane, verified

This project models the state machines with which the agent keeps its in-memory records in agreement
with a shared OVS bridge, and proves what they keep through command failures, device loss, restarts and
crashes. Beside them stand the deploy lock, the Telnet filters, the carrier monitor and two catalog
reconcilers. `dafny verify dfyconfig.toml` checks everything.

Each step of the program is a function of the state and of an explicit record of command outcomes, so
that "for every failure" is a universal quantifier; the classes (`OverlayManager`, `OvsNetworkManager`,
`DockerOvsPlugin`, `Monitor`, `CatalogBackfill`) perform the same steps on fields in loops, and each of
their methods is proved against those functions or against a relation between its old and new state.

## What is modelled

- **Overlay** (`OverlayWorld`, `OverlayState`, `OverlayTheorems`, `OverlayOutcomes`, `OverlaySafety`,
  `OverlayHealth`, `OverlayRecovery`, `OverlayManager`): declaring tunnels, removing orphans, the periodic repair pass,
  recovery of the tracking table after a crash. The bridge maps port names to tag and health, the kernel
  maps device names to endpoints and MTU; tracking is a map with its insertion order; the cache file is
  a field.
- **OVS ports and links** (`OvsProvision`, `OvsOutcomes`, `OvsBookkeeping`, `OvsIsolation`, `OvsRestart`,
  `OvsVlanNames`, `OvsReconnectOrder`, `OvsRestartSuccess`, `OvsDiscovery`, `OvsNetworkManager`): provisioning with every
  failure exit, deletion, stale cleanup, `hot_connect`, the tag allocator, discovery of existing state over
  reservations loaded from disk, and the container restart that rebuilds ports and links.
- **Docker driver** (`VlanPools`, `DockerPlugin`, `DockerOutcomes`, `DockerOvsPlugin`): two tag pools with circular cursors
  and spill-over, networks per lab, endpoints, repair, lab cleanup and reloading the state, over all runs of
  driver calls.
- **Deploy lock** (`DeployLock`, `DeployLockProgress`): any number of acquisitions in any number of processes as timed steps,
  atomic between awaits, with expiry, forced release, Redis errors, cancellation and crashes anywhere.
- **Telnet filters** (`TelnetFilter`): both hand-written IAC loops, against one specification.
- **Carrier monitor** (`CarrierMonitor`), **catalog backfill** (`CatalogBackfill`, `CatalogManifest`),
  **manifest backfill** (`ManifestBackfill`).

The `...Outcomes` modules say of single operations, in terms of fields and command outcomes only, what each of
them leaves; the other modules build on that to speak of whole calls and whole runs.

## What the proofs found

Each of these is a lemma; where a property the program is meant to have fails, the exact condition under
which it holds is proved.

- A failed Port query reads as "no ports" although the docstring promises `None` for an unreadable OVS;
  the next declaration then deletes the device of every live tunnel and reports errors
  (`GoodSurvivesReading`), and a repair pass does the same to every tracked tunnel (`UpSurvivesReading`).
- A link re-declared under another port name leaves its old port behind, untracked for good
  (`MovedLinkLeaksItsPort`); which ports a declaration removes can be told beforehand (`RemovedIff`), and an
  orphan goes exactly when its link did not move (`OrphanRemovedIffNotMoved`).
- The repair pass brings back a lost port of a link that nobody declares any more, which the next
  declaration then removes; and a lost port two links run over does not come back healthy (`SelfHealing`,
  `LostPortHealsIffUnshared`).
- A port name that collides with a tracked port makes a failing provision delete that other port
  (`ProvisionKeepsBridge`).
- A new interface starts alone on its VLAN as long as every carried tag is reserved. After `hot_connect` one
  reservation stands for two ports; deleting, cleaning up or re-connecting the port that holds it frees a tag
  that is still carried, and a new port can get it (`DeletedPeerFreesSharedTag`). Isolation is safe over a run
  exactly while no step releases such a sole reservation (`RunIsolatesIff`, `IsolatedFromEveryCursorIff`).
- An error-free container restart gives back ports and links, but not always working ones. `hot_connect`
  moves the second end to the VLAN of the first, so a rebuilt port that is the left end of a link takes its
  peer off the VLAN of the peer's other links (`RestartSplitsOthersLink`), and one that is first a left and
  later a right end parts from its first peer (`RestartSplitsOwnLink`). While unused
  tags lie ahead of the allocator's cursor, the links and the stale ports alone tell whether all links work
  (`RestartReconnectsIff`), and for one stale port the order and orientation of its links decide
  (`OneStalePortIff`); from any cursor the tags handed out decide (`RestartVlans`), and point-to-point links
  always work again (`RestartReconnects`).
- A single `hot_connect` splits existing links unless the ends already agree or the second end has none
  (`ConnectKeepsLinksIff`).
- Reservations loaded from disk whose port is not discovered stay reserved without a port
  (`DiscoveryContract`); a new interface under such a key takes that tag, shared or not
  (`NewPortSharesIff`).
- An endpoint creation that fails after the allocation leaks its tag until the state is reloaded
  (`FailedCreateLeaks`, `LeakLastsUntilReload`, `ReloadFreesLeaks`). No call leaks a tag but a failed creation, one
  that takes the id of a live endpoint, and a reservation for a link (`StepLeaksIff`, `RunIsTightIff`).
- The lock's ownership test looks only at the agent id: it is safe exactly while there is one process
  per agent id (`SafeIffOnePerAgent`, `SharedAgentDeletesForeignKey`). The heartbeat covers the body
  exactly when one interval and four step delays fit into the TTL (`HeartbeatBoundIsExact`), and the release
  too exactly when six do (`ReleaseBoundIsExact`).
- An acquisition that waits for a left-over key gets its own within one pause and one delay after that expires,
  if it expires within the timeout, and does not give up before (`WaitIsRewarded`).
- The Telnet filters keep no state between two reads: a chunk boundary is harmless exactly between two
  tokens, for the data (`ChunkSafeIffComplete`) and for the refusals (`RepliesSafeIffComplete`).
- A carrier change across a failed query is never reported (`GapHidesChange`). Replaying the reports gives a
  port's state exactly while it never returns from a gap in another state (`ReplayIsRightIff`).
- A repeated image id in a manifest can leave a default image that is not compatible with its device
  (`DefaultsCompatibleIff`, `RepeatedIdBreaksDefault`). A manifest list that differs from its group's union
  only in order, case or repetitions is not rewritten (`ListIsUnionIff`).

The docstring of `declare_state` also says that VNI is compared for an existing port; the code compares
neither VNI nor addresses. After a call with working commands a live tunnel runs between the declared endpoints
exactly when its port had to be made or its device had them before (`EndpointsDeclaredIff`).

## Modelling choices

- A command outcome is an input. Exceptions are result values (`Option`, `Result`-like statuses).
- Passes of the overlay manager are atomic. Deploy-lock steps are atomic between awaits.
- Keys of the form "container:interface" are pairs, link keys are the triple of lab and the two ends.
- Times of the deploy lock are integers in an arbitrary unit. `delay` bounds how late each single step
  of an acquisition comes; one heartbeat has four steps. The pause between attempts is a parameter.
- `DeployLock` lets any acquisition of an agent use any free local lock; fairness is not modelled.
- The normalisation of device ids comes from a part of the repository that is not part of this model; it
  is a parameter, elementwise, and idempotent where a lemma says so.
- Iteration over a set or a sorted listing of a set is in arbitrary order; the removed orphans are reported as a set.

## Model

| member | source | states |
|---|---|---|
| OverlayWorld.CreateDeviceContract | agent/network/overlay_vxlan.py:22-88 | creation succeeds iff the name is free on the bridge, the device could be made (one retry over a stale one) and add-port worked; success leaves a healthy port with the tag on a device with the endpoints; failure never leaves a new port, nor with a working rollback a device; nothing else changes |
| OverlayWorld.DeleteDeviceContract | agent/network/overlay_vxlan.py:91-108 | with working commands the name is gone from bridge and kernel; nothing else changes, whatever fails |
| OverlayTheorems.TunnelFrame | agent/network/overlay_state.py:195-337 | for every command outcome one tunnel touches only its own port, device and tracking entry |
| OverlayTheorems.TunnelConverges | agent/network/overlay_state.py:217-328 | with working commands one live tunnel ends with a healthy port, its tag, its MTU and its tracking entry field by field; it is created iff it did not read as healthy, and then has the declared VNI and addresses |
| OverlayTheorems.TunnelsConverge | agent/network/overlay_state.py:195-337 | the loop converges all tunnels of a declaration with distinct names and ids, none undoing another, and those created have the declared VNI and addresses |
| OverlayTheorems.DeclareConverges | agent/network/overlay_state.py:158-375 | convergence: every live tunnel good and reported as converged, updated or created, the created ones with the declared VNI and addresses, no orphan left in scope, cache equal to the live tunnels |
| OverlayTheorems.DeclareOnGoodState | agent/network/overlay_state.py:158-375 | on a state as declared every live tunnel reads converged whatever later commands would return; something is removed iff an undeclared port in scope is on the bridge; otherwise nothing changes |
| OverlayTheorems.DeclareIsIdempotent | agent/network/overlay_state.py:158-375 | a second identical declaration changes nothing, removes nothing and reports all converged |
| OverlayTheorems.RemovePortsFrame | agent/network/overlay_state.py:339-367 | orphan removal forgets exactly the links over removed ports and touches no other port |
| OverlayOutcomes.ReadingTells | agent/network/overlay_state.py:28-105 | a reading fails only with the listing and has each vxlan port with tag and health, but no port after a failed Port query and none healthy after a failed Interface query |
| OverlayOutcomes.MissingOutcome | agent/network/overlay_state.py:288-337 | for every outcome: when a missing or broken port is created, what it is then built and tracked with, and what a failure leaves |
| OverlayOutcomes.ExistingOutcome | agent/network/overlay_state.py:231-287 | for every outcome: a healthy port keeps its endpoints, gets tag and MTU as far as the commands work, and the reported status and VLAN |
| OverlayOutcomes.RemovalOutcome | agent/network/overlay_state.py:356-364 | for every outcome: what is left of a removed port, its device and its links |
| OverlayOutcomes.DeclareOutcomes | agent/network/overlay_state.py:158-375 | the whole call from the state before it: which tunnels are left alone, built between the declared endpoints, or put right in tag and MTU, and what is reported for each |
| OverlayOutcomes.EndpointsDeclaredIff | agent/network/overlay_state.py:217-328 | after the call a live tunnel has the declared VNI and addresses iff its port was not healthy before or its device had them |
| OverlaySafety.DeclareIsScoped | agent/network/overlay_state.py:189-215 | for every outcome: a failed listing changes nothing; removed ports were undeclared vxlan- ports with a tracked link of a lab in scope; protected, untracked and other-lab ports are untouched; no entry names a removed port |
| OverlaySafety.DeclareKeepsIds | agent/network/overlay_state.py:271-280 | tracking entries stay filed under their own link id, whatever fails |
| OverlaySafety.OrphanIffBefore | agent/network/overlay_state.py:339-367 | a port no link moved away from is removed iff it was an orphan before the call |
| OverlaySafety.RemovedIff | agent/network/overlay_state.py:339-367 | with working commands a port goes, and its device with it, iff no tunnel declares it, its name starts with vxlan- and the first link over it that is not re-declared is of a lab in scope |
| OverlaySafety.MovedLinkLeaksItsPort | agent/network/overlay_state.py:346-352 | a port whose links all moved stays on the bridge, unremoved and untracked |
| OverlaySafety.OrphanRemovedIffNotMoved | agent/network/overlay_state.py:341-364 | with unshared interfaces an orphan is removed iff its link is not re-declared under another port name; otherwise it stays, untracked |
| OverlaySafety.BlindTunnels | agent/network/overlay_state.py:288-305 | declaring against an empty reading tears down every live tunnel and reports an error for it |
| OverlaySafety.GoodSurvivesReading | agent/network/overlay_state.py:54-105 | a good state survives another declaration iff the listing failed, the Port query worked, or there is no live tunnel |
| OverlayHealth.RepairFrame | agent/network/overlay_health.py:93-147 | for every outcome a pass touches only ports of tracked links that read as bad |
| OverlayHealth.RepairsComplete | agent/network/overlay_health.py:93-142 | with working commands and unshared interfaces every link that read as bad is up, every other untouched |
| OverlayHealth.PassRebuildsBadLinks | agent/network/overlay_health.py:72-147 | the whole pass: every tracked link without a healthy port gets one with the tracked tag, VNI, addresses and MTU, every other is left alone, all are counted as checked and just those as repaired |
| OverlayHealth.RepairRestoresGood | agent/network/overlay_health.py:72-154 | after arbitrary faults on a good state one pass makes it good again, each tracked port being as before or built anew as tracked |
| OverlayHealth.SelfHealing | agent/network/overlay_health.py:72-154 | after faults and one pass the same declaration finds all converged; it changes and removes nothing iff no undeclared link in scope is tracked |
| OverlayHealth.LostPortHealsIffUnshared | agent/network/overlay_health.py:93-138 | a lost port comes back healthy iff exactly one link is tracked over it |
| OverlayHealth.UpSurvivesReading | agent/network/overlay_health.py:72-147 | links that are up survive a pass iff the listing failed, the Port query worked, or nothing is tracked; after a failed Port query every tracked port has lost its device |
| OverlayRecovery.CacheableIsLive | agent/network/overlay_state.py:369-372 | the cache filter keeps exactly the tunnels that are not protected |
| OverlayRecovery.DeclareRebuilds | agent/network/overlay_state.py:391-396 | declaring good ports to an agent that tracks nothing only rebuilds the table, exactly the declared entries |
| OverlayRecovery.CrashRecovery | agent/network/overlay_state.py:378-403 | after losing the table, recovery restores exactly the entries of the live tunnels and returns their number; bridge and cache stay as they are |
| OverlayRecovery.ScanKeepsLinks | agent/network/overlay_state.py:407-473 | the fallback scan invents and forgets no link; exactly the known links over readable ports get VNI, addresses and tag from kernel and bridge and are counted, all others stay as they were |
| OverlayRecovery.KnownIff | agent/network/overlay_state.py:410-414 | a port belongs to the last tracked link over it whose id is not just the port's name |
| OverlayRecovery.RecoverTriesCacheFirst | agent/network/overlay_state.py:391-408 | the cache is declared first; the scan follows iff there is none, it is empty, or nothing was recovered from it |
| OverlayRecovery.CountsOneByOne | agent/network/overlay_state.py:394-397 | just the tunnels neither protected nor failed are counted |
| OverlayManager.RemoveOneMore | agent/network/overlay_state.py:356-364 | removing ports one after the other is removing them together |
| OverlayManager.JudgedOnTheFly | agent/network/overlay_state.py:341-354 | an orphan may be judged between removals: they do not change who owns another port |
| OverlayManager.OverlayManager.CreateVxlanDevice | agent/network/overlay_vxlan.py:50-83 | the statements in order have the effect of the creation function |
| OverlayManager.OverlayManager.UpdateExisting | agent/network/overlay_state.py:231-287 | an existing port: tag, MTU, tracking entry and reported status |
| OverlayManager.OverlayManager.CreateMissing | agent/network/overlay_state.py:288-324 | a missing port: leftover device, creation, tracking entry and status |
| OverlayManager.OverlayManager.ConvergeTunnel | agent/network/overlay_state.py:209-337 | one declared tunnel, protected or live |
| OverlayManager.OverlayManager.ConvergeTunnels | agent/network/overlay_state.py:195-337 | the loop over the tunnels, with the declared names and labs it notes |
| OverlayManager.OverlayManager.OwnerOf | agent/network/overlay_state.py:346-350 | the first tracked tunnel over a port, in tracking order |
| OverlayManager.OverlayManager.RemoveOrphans | agent/network/overlay_state.py:339-367 | the loop over the reading removes exactly the orphans of the state before it |
| OverlayManager.OverlayManager.DeclareState | agent/network/overlay_state.py:158-375 | the whole call has the effect and the report of the transition function the theorems are about |
| OverlayManager.OverlayManager.RepairTunnel | agent/network/overlay_health.py:97-139 | one link of the repair pass |
| OverlayManager.OverlayManager.CheckAndRepair | agent/network/overlay_health.py:72-154 | the whole pass, with its counts, has the effect of the function the theorems are about |
| OverlayManager.OverlayManager.ScanPorts | agent/network/overlay_state.py:407-473 | the fallback scan, port by port in any order, has the effect and the count of the scan function |
| OverlayManager.OverlayManager.RecoverLinkTunnels | agent/network/overlay_state.py:378-473 | recovery from the cache, or by the scan when that recovers nothing |
| OvsBookkeeping.AllocateTagContract | agent/network/ovs.py:287-323 | the allocator fails iff all tags are reserved and then changes nothing; otherwise it reserves one tag that nobody has |
| OvsOutcomes.AllocateOutcome | agent/network/ovs.py:287-323 | a reserved key keeps its tag; any other gets the first unreserved tag on the ring from the cursor, which moves just behind it; none left, nothing changes |
| OvsOutcomes.ReleasedTagComesLast | agent/network/ovs.py:303-318 | a tag just given back is handed out again only when no other is left |
| OvsOutcomes.ProvisionOutcome | agent/network/ovs_provision.py:303-409 | when provisioning succeeds, the port it then adds to bridge and tables, and what each failure leaves of bridge and reservation |
| OvsOutcomes.DeleteOutcome | agent/network/ovs_provision.py:416-463 | deletion takes out exactly the port, its bridge port, its reservation and the links on it |
| OvsOutcomes.CleanupOutcome | agent/network/ovs_provision.py:531-568 | the same for stale cleanup, under the noted port name |
| OvsOutcomes.ConnectOutcome | agent/network/ovs.py:556-629 | when connecting succeeds; the second end's tag, bridge tag and reservation; the one link record with its lab and tag; nothing else |
| OvsOutcomes.NoErrorNoFailedProbe | agent/network/ovs_provision.py:613-646 | a restart without an error had no failing staleness probe |
| OvsOutcomes.RestartRecords | agent/network/ovs_provision.py:658-694 | after a restart for a lab the links on its stale ports are recorded under that lab, and without an error so are the ports, without a node name |
| OvsBookkeeping.ProvisionContract | agent/network/ovs_provision.py:303-409 | a failed provision restores ports, links and reservations; success adds one port and one unreserved tag |
| OvsBookkeeping.ProvisionKeepsBridge | agent/network/ovs_provision.py:340-395 | tracked tags stay those on the bridge iff the failure path does not delete a tracked port of the same name |
| OvsBookkeeping.DeleteKeepsBook | agent/network/ovs_provision.py:431-463 | deletion keeps the books, and leaves no port, reservation or link of the key |
| OvsBookkeeping.DeleteUndoesProvision | agent/network/ovs_provision.py:431-463 | deleting a port right after provisioning it restores everything but the allocator's cursor |
| OvsBookkeeping.HotConnectContract | agent/network/ovs.py:582-629 | failure changes nothing; success puts both ends on one tag; all ports keep a reservation iff the ends shared a tag before or the call fails |
| OvsBookkeeping.RunKeepsBook | agent/network/ovs_provision.py:303-566 | over every run of provision, delete, stale cleanup and connect every link joins tracked ports and reservations belong to tracked ports; without connects, tracked keys and reserved keys are equal |
| OvsBookkeeping.RunKeepsBridge | agent/network/ovs_provision.py:303-566 | over every run with new port names tracked tags and bridge tags agree, whatever fails |
| OvsBookkeeping.DeletedPeerFreesSharedTag | agent/network/ovs.py:600-612 | deleting the first end of a link frees a tag that its other end still has; a later port can get it |
| OvsIsolation.NewPortIsIsolated | agent/network/ovs_provision.py:280-284 | while every carried tag is reserved, a new interface gets a tag that no port is on, and every carried tag stays reserved |
| OvsIsolation.NewPortSharesIff | agent/network/ovs.py:296-313 | with reservations that have no port, a new interface shares a VLAN iff such a reservation of its own key has a tag that a port is on |
| OvsIsolation.IsolatedFromEveryCursorIff | agent/network/ovs.py:287-323 | the allocator avoids carried tags from every cursor iff each carried tag of its range is reserved |
| OvsIsolation.ForgetKeepsCoverIff | agent/network/ovs_provision.py:536-568 | deletion and stale cleanup keep carried tags reserved iff the port is not the only one to reserve a tag another port is on |
| OvsIsolation.ConnectKeepsCoverIff | agent/network/ovs.py:600-612 | a connect keeps them reserved iff it does not give up such a sole reservation of its second end |
| OvsIsolation.RunIsolatesIff | agent/network/ovs_provision.py:303-566 | over every run carried tags stay reserved iff no step releases a sole reservation, and then every new interface starts isolated |
| OvsRestart.HotConnectConnects | agent/network/ovs.py:556-629 | a successful connect adds the pair and keeps every other pair and port |
| OvsRestart.ReprovisionContract | agent/network/ovs_provision.py:658-694 | one stale port without an error: cleaned up, rebuilt, and all its pairs back |
| OvsRestart.RestartPreservesTopology | agent/network/ovs_provision.py:575-706 | with no error tracked keys and linked pairs are the same as before, links between two stale ports included; in any case the books are in order and ports that were not stale keep all but perhaps their tag |
| OvsVlanNames.RestartVlans | agent/network/ovs_provision.py:575-706 | after an error-free restart every port is on the VLAN it had or that a stale port was newly given, as following the links tells; all links work iff those tags agree at both ends of each |
| OvsVlanNames.RestartReconnectsIff | agent/network/ovs_provision.py:657-694 | from links and stale ports alone: links whose ends follow the same port work again; with unused tags ahead of the cursor no others do |
| OvsReconnectOrder.OneStalePortIff | agent/network/ovs_provision.py:675-691 | one stale port with links to different ports: all links work iff it has none, or is right end of its first, or is right end of none and no other link has exactly one of its neighbours |
| OvsRestartSuccess.RestartSucceeds | agent/network/ovs_provision.py:575-706 | with working commands, new port names and tags left, a restart reports no error |
| OvsRestartSuccess.RestartSplitsOwnLink | agent/network/ovs_provision.py:675-691 | a whole error-free restart after which the restarted port is on another VLAN than its first peer |
| OvsRestartSuccess.RestartSplitsOthersLink | agent/network/ovs_provision.py:675-691 | a whole error-free restart after which a link between two healthy ports of other containers is split |
| OvsRestartSuccess.ConnectKeepsLinksIff | agent/network/ovs.py:582-629 | a successful connect keeps all links working iff the ends already shared a tag or the second end has no link |
| OvsDiscovery.DiscoveredPorts | agent/network/ovs_provision.py:213-237 | every matched veth is tracked and reserved with its tag on the bridge |
| OvsDiscovery.DiscoveredLinks | agent/network/ovs_provision.py:242-262 | after any prefix of the tags the links are those of the only two ports with one of them |
| OvsDiscovery.DiscoveryContract | agent/network/ovs_provision.py:107-262 | over loaded reservations: discovered ports are reserved with their tag, the other loaded ones stay; reservations and ports agree iff every loaded key is discovered; two ports are linked iff they are the only two sharing a tag; tags agree, links point-to-point |
| OvsDiscovery.DiscoveredFromReading | agent/network/ovs_provision.py:123-237 | from the reading alone: an interface is tracked iff a listed vh port belongs to it; the last such port counts, with its tag and the container's lab and node |
| OvsDiscovery.DiscoveredLinkRecords | agent/network/ovs_provision.py:242-262 | every discovered link starts at the port tracked first and carries its lab and tag |
| OvsNetworkManager.OvsNetworkManager.AllocateVlan | agent/network/ovs.py:299-323 | the cursor loop of the allocator computes the nearest free tag, and gives up after a full round |
| OvsNetworkManager.OvsNetworkManager.RemoveLinks | agent/network/ovs_provision.py:452-463 | the links on a key are removed, the others keep their order |
| OvsNetworkManager.OvsNetworkManager.ProvisionInterface | agent/network/ovs_provision.py:272-409 | the statements in order have the effect of the provision function |
| OvsNetworkManager.OvsNetworkManager.DeletePort | agent/network/ovs_provision.py:416-463 | the statements in order have the effect of the delete function |
| OvsNetworkManager.OvsNetworkManager.CleanupStalePort | agent/network/ovs_provision.py:531-568 | the same for stale cleanup |
| OvsNetworkManager.OvsNetworkManager.HotConnectPorts | agent/network/ovs.py:556-629 | the same for connecting two ports |
| OvsNetworkManager.OvsNetworkManager.CollectStale | agent/network/ovs_provision.py:605-646 | the first phase finds the stale ports with names and links as they are before any cleanup |
| OvsNetworkManager.OvsNetworkManager.ConnectedLinks | agent/network/ovs_provision.py:620-640 | the endpoint pairs of the links on a port, in link order and orientation |
| OvsNetworkManager.OvsNetworkManager.ReconnectPairs | agent/network/ovs_provision.py:675-691 | the reconnect loop, with its number of failures |
| OvsNetworkManager.OvsNetworkManager.ReprovisionPort | agent/network/ovs_provision.py:658-694 | one stale port: cleanup, provisioning, reconnection, and the number of errors |
| OvsNetworkManager.OvsNetworkManager.HandleContainerRestart | agent/network/ovs_provision.py:575-706 | both phases have the effect and the error count of the restart function |
| OvsNetworkManager.OvsNetworkManager.GroupByTag | agent/network/ovs_provision.py:242-247 | the grouping loop collects, per tag in order of appearance, the keys with that tag |
| OvsNetworkManager.OvsNetworkManager.DiscoverOne | agent/network/ovs_provision.py:213-237 | one veth: tracked and reserved when tag, ifindex and container are known |
| OvsNetworkManager.OvsNetworkManager.LinkPairs | agent/network/ovs_provision.py:242-262 | the link loop over the groups |
| OvsNetworkManager.OvsNetworkManager.DiscoverExistingState | agent/network/ovs_provision.py:107-262 | the loops have the effect of the discovery function |
| VlanPools.SearchIsNearest | agent/network/docker_plugin.py:415-458 | the circular search finds the nearest free tag on the ring, or none within reach |
| VlanPools.SearchIsComplete | agent/network/docker_plugin.py:415-458 | with a full round it fails iff the range is full |
| VlanPools.PickFreeIsLeast | agent/helpers.py:731-736 | first fit finds the least free tag, or none |
| VlanPools.AllocateContract | agent/network/docker_plugin.py:415-458 | from any cursors: a free tag of 100..4000, of the own range while that has one; fails iff all 3901 are used, iff first fit on the same set fails |
| VlanPools.AllocateLinkedContract | agent/network/docker_plugin.py:469-513 | the same for linked tags, preferring the linked range |
| VlanPools.ReleaseContract | agent/network/docker_plugin.py:460-467 | a release frees exactly that tag, in whichever pool it is |
| VlanPools.CursorsMoveOn | agent/network/docker_plugin.py:415-513 | the cursor of the range a tag came from moves just behind it, the other stays |
| VlanPools.ReleasedTagComesLast | agent/network/docker_plugin.py:415-467 | an isolated tag just released is handed out again only when no other of its range is free |
| VlanPools.SearchFromStartIsFirstFit | agent/helpers.py:731-751 | with the cursor at the start the circular search is first fit |
| DockerPlugin.RunKeepsIsolation | agent/network/docker_plugin.py:415-522 | over every run, failures and reloads included, live endpoints have distinct reserved tags; between reloads each pool stays in its range |
| DockerPlugin.FailedCreateLeaks | agent/network/docker_plugin.py:1548-1563 | a creation that got a tag leaks it iff it fails afterwards |
| DockerPlugin.LeakLastsUntilReload | agent/network/docker_plugin.py:1524-1603 | no run of driver calls without a reload frees a leaked tag or gives it to an endpoint |
| DockerPlugin.ReloadFreesLeaks | agent/network/plugin_state.py:136 | reloading frees exactly the tags no endpoint has and keeps the isolation of the others |
| DockerPlugin.CleanupIsScoped | agent/network/docker_plugin.py:732-777 | cleanup frees exactly the tags of the lab's endpoints and leaves all other labs alone |
| DockerPlugin.AddNetworkKeepsAgreement | agent/network/docker_plugin.py:1468-1504 | networks and per-lab ids stay inverse iff the id is not taken by another lab or the call is rejected |
| DockerPlugin.RunKeepsNetworksAgreeing | agent/network/docker_plugin.py:260-329 | over every run with fresh ids networks and per-lab ids are inverse, and a lab is tracked iff it has a network |
| DockerPlugin.EveryRunFromFresh | agent/network/docker_plugin.py:168-193 | both invariants for every run of a new plugin |
| DockerOutcomes.DeleteEndpointOutcome | agent/network/docker_plugin.py:1586-1603 | deletion takes out exactly the endpoint and frees exactly its tag |
| DockerOutcomes.CreateEndpointOutcome | agent/network/docker_plugin.py:1524-1584 | when creation is rejected, the free tag it reserves otherwise, and the record it adds iff veth pair and attachment worked |
| DockerOutcomes.RepairEndpointOutcome | agent/network/docker_plugin.py:1426-1430 | only the veth names of the repaired endpoint change |
| DockerOutcomes.ReserveLinkedOutcome | agent/network/docker_plugin.py:469-513 | a link reservation takes one free tag, a linked one while there is any |
| DockerOutcomes.CreateNetworkOutcome | agent/network/docker_plugin.py:1468-1504 | when a network is accepted, and the records it is entered in |
| DockerOutcomes.DeleteNetworkOutcome | agent/network/docker_plugin.py:1506-1522 | exactly the network goes, and its lab's record with the last one |
| DockerOutcomes.CleanupOutcome | agent/network/docker_plugin.py:732-777 | exactly the lab's endpoints, tags, networks and record go |
| DockerOutcomes.ReloadOutcome | agent/network/plugin_state.py:136 | the pools are rebuilt from the endpoints, all else is kept |
| DockerOutcomes.StepLeaksIff | agent/network/docker_plugin.py:1524-1603 | a call leaks a tag iff it is a creation that got it and failed, one that took the id of the endpoint that had it, or a link reservation |
| DockerOutcomes.RunIsTightIff | agent/network/docker_plugin.py:415-522 | over every run the reserved tags are those of the endpoints iff no call leaks one |
| DockerOvsPlugin.DockerOvsPlugin.Walk | agent/network/docker_plugin.py:415-458 | one cursor loop over one range is the circular search |
| DockerOvsPlugin.DockerOvsPlugin.AllocateVlan | agent/network/docker_plugin.py:415-458 | both cursor loops have the effect of the allocation function |
| DockerOvsPlugin.DockerOvsPlugin.AllocateLinkedVlan | agent/network/docker_plugin.py:469-513 | the same for linked tags |
| DockerOvsPlugin.DockerOvsPlugin.HandleCreateNetwork | agent/network/docker_plugin.py:1468-1504 | network and lab records after the call |
| DockerOvsPlugin.DockerOvsPlugin.HandleDeleteNetwork | agent/network/docker_plugin.py:1506-1522 | the same for deletion, the lab's record going with its last network |
| DockerOvsPlugin.DockerOvsPlugin.HandleCreateEndpoint | agent/network/docker_plugin.py:1524-1584 | endpoints and pools after the call, on every failure exit |
| DockerOvsPlugin.DockerOvsPlugin.HandleDeleteEndpoint | agent/network/docker_plugin.py:1586-1603 | endpoints and pools after the call |
| DockerOvsPlugin.DockerOvsPlugin.CollectEndpoints | agent/network/docker_plugin.py:751-756 | the first sweep collects exactly the endpoints on networks of the lab |
| DockerOvsPlugin.DockerOvsPlugin.RemoveCollected | agent/network/docker_plugin.py:758-761 | the second sweep takes them out and releases their tags |
| DockerOvsPlugin.DockerOvsPlugin.FullLabCleanup | agent/network/docker_plugin.py:732-777 | the sweeps together have the effect of the cleanup step |
| DockerOvsPlugin.RemoveOneMore | agent/network/docker_plugin.py:758-761 | taking endpoints out one by one is taking them out together |
| DeployLock.RunKeepsInv | agent/locks.py:95-174 | over every run: whoever is past the local lock holds it, no local lock is left behind, keys outlive no TTL, a running acquisition's key is its own |
| DeployLock.LockSafety | agent/locks.py:130-174 | over every run with expiries, forced releases, errors and crashes: at most one acquisition per lab is past the SET, and none deletes, extends or replaces a live key of another |
| DeployLock.SafeIffOnePerAgent | agent/locks.py:82-103 | exclusion holds over all runs iff each agent id has one process |
| DeployLock.SharedAgentDeletesForeignKey | agent/locks.py:164-168 | with two processes under one agent id a release deletes the other's live key |
| DeployLock.NothingAfterRelease | agent/locks.py:356-371 | once an acquisition has left, its key is never written or extended again, and within one TTL it is gone |
| DeployLock.CrashFreesWithinTtl | agent/locks.py:134-141 | after a crash, within one TTL every live key of that process was written by an acquisition started later |
| DeployLock.HeartbeatHoldsTheKey | agent/locks.py:314-371 | in every timely run the own key is live from the SET to the end of the body, with two more delays to the DELETE; an upper bound on how long attempts go on |
| DeployLockProgress.AttemptOutcome | agent/locks.py:130-160 | an attempt on a free key sets it for a TTL; on a live one it ends the acquisition iff the timeout has passed, and else pauses and changes nothing |
| DeployLockProgress.WaitIsRewarded | agent/locks.py:129-160 | over every timely run: no end before key and timeout have run out; a key that expires within the timeout is followed by the own one within one pause and one delay |
| DeployLockProgress.LocalLockOutcome | agent/locks.py:123-127 | the local lock is taken iff free, and the timeout counts from then |
| DeployLockProgress.EntryOutcome | agent/locks.py:314-361 | the body begins with its heartbeat, if there is to be one |
| DeployLockProgress.BeatOutcome | agent/locks.py:318-351 | one beat: sleep, look, extend the own live key by a TTL |
| DeployLockProgress.ReleaseOutcome | agent/locks.py:162-174 | the release deletes the key iff it looks like the agent's own and gives the local lock back on every exit |
| DeployLockProgress.NoKeyLeftBehind | agent/locks.py:162-174 | a timely acquisition that is done has left no key of its own |
| DeployLock.HeartbeatBoundIsExact | agent/locks.py:342-354 | the key covers the body in all timely runs iff interval plus four delays is below the TTL |
| DeployLock.ReleaseBoundIsExact | agent/locks.py:356-371 | the key covers everything up to the DELETE in all timely runs iff interval plus six delays is below the TTL |
| TelnetFilter.SkipSubnegotiation | agent/console_extractor.py:180-185 | the nested scan stops just behind the first IAC SE, or at the end |
| TelnetFilter.ConsoleFilter | agent/console_extractor.py:163-192 | the bridge's loop yields the filter of the specification and its refusals |
| TelnetFilter.ReadinessFilter | agent/readiness.py:470-491 | the second loop yields the same filter on every byte string |
| TelnetFilter.RoundTrip | agent/console_extractor.py:163-192 | filtering an encoding followed by anything yields its data followed by the filter of the rest; likewise the refusals |
| TelnetFilter.FilterInvertsEncode | agent/console_extractor.py:163-192 | filtering an encoding of data, commands, negotiations and subnegotiations yields exactly the data |
| TelnetFilter.RefusalsEndTheExchange | agent/console_extractor.py:171-177 | the refusals, filtered again, give no data and no refusals |
| TelnetFilter.ByteForByte | agent/console_extractor.py:163-192 | in byte values: what each kind of token gives of data and refusals |
| TelnetFilter.CutOffAtEnd | agent/console_extractor.py:178-192 | what a token cut off at the end gives |
| TelnetFilter.ChunkSafeIffComplete | agent/console_extractor.py:155-194 | cutting a stream is harmless for every continuation iff the cut is between two tokens |
| TelnetFilter.RepliesSafeIffComplete | agent/console_extractor.py:155-194 | answering two chunks one by one answers the whole stream, for every continuation, iff the cut is between two tokens |
| TelnetFilter.ParseIsInverted | agent/console_extractor.py:163-192 | every stream without a cut-off token is the encoding of valid tokens |
| TelnetFilter.EncodingIsComplete | agent/console_extractor.py:163-192 | every encoding of valid tokens has no cut-off token |
| CarrierMonitor.BuildManagedPorts | agent/network/carrier_monitor.py:49-102 | a name is managed iff a source has it; the VM tap wins over the endpoint and the endpoint over the OVS port; an endpoint's fields are its own with its network's lab |
| CarrierMonitor.NodeOfInvertsNaming | agent/network/carrier_monitor.py:296-314 | names built from lab and node give the node back, any other name itself |
| CarrierMonitor.Monitor.SeedInitialState | agent/network/carrier_monitor.py:170-176 | the table holds the observed states of the managed ports |
| CarrierMonitor.Monitor.Detect | agent/network/carrier_monitor.py:186-201 | the first loop brings managed ports up to date and lists each known port that differs once |
| CarrierMonitor.Monitor.Prune | agent/network/carrier_monitor.py:203-206 | the second loop forgets exactly the ports that are no longer managed |
| CarrierMonitor.Monitor.PollOnce | agent/network/carrier_monitor.py:178-231 | the table is the observation restricted to managed ports; every known port that differs is reported once, as on iff its state is up, with its lab, interface and node |
| CarrierMonitor.ReportsAreTheChanges | agent/network/carrier_monitor.py:178-206 | while a port stays managed and visible the reports are exactly its changes, and replaying them gives its state |
| CarrierMonitor.LastEventIsCurrent | agent/network/carrier_monitor.py:186-231 | the last event of a port that stays visible says on iff its state is up now |
| CarrierMonitor.ReplayIsRightIff | agent/network/carrier_monitor.py:178-206 | over any history, gaps included, replaying the reports gives the visible state at every poll iff the port never returns from a gap in another state |
| CarrierMonitor.GapHidesChange | agent/network/carrier_monitor.py:253-267 | what happens across a failed query, or any gap in which the port is not seen, is never reported |
| CatalogBackfill.DistinctIdsDefaultsAreTargets | scripts/backfill_device_image_catalog_db.py:616-622 | with distinct image ids every desired default is among the targets of its image |
| CatalogBackfill.DefaultsCompatibleIff | scripts/backfill_device_image_catalog_db.py:597-625 | after a run all defaults are compatible iff each desired default is among the targets of the last entry of its image |
| CatalogBackfill.SettledIsCompatible | scripts/backfill_device_image_catalog_db.py:620-622 | with distinct image ids all defaults are compatible after a run |
| CatalogBackfill.RepeatedIdBreaksDefault | scripts/backfill_device_image_catalog_db.py:597-625 | a manifest with a repeated id for which every settled catalog has an incompatible default |
| CatalogBackfill.RowsReplaced | scripts/backfill_device_image_catalog_db.py:433-450 | replacing an image's rows adds and removes exactly the differences |
| CatalogManifest.ManifestAsks | scripts/backfill_device_image_catalog_db.py:597-625 | an image is for the devices of its last entry, primary, compatible and default ones; a device's default is the last image that wants to be it |
| CatalogBackfill.CatalogBackfill.EnsureDevices | scripts/backfill_device_image_catalog_db.py:428-431 | missing devices are discovered under new ids; known ones keep theirs |
| CatalogBackfill.CatalogBackfill.EnsureImage | scripts/backfill_device_image_catalog_db.py:363-389 | a missing image is created under a new id |
| CatalogBackfill.CatalogBackfill.AddScopes | scripts/backfill_device_image_catalog_db.py:613-622 | every default scope of an entry becomes a target, and its default the entry's image |
| CatalogBackfill.CatalogBackfill.SetImageCompatibility | scripts/backfill_device_image_catalog_db.py:427-452 | the image's rows become the targets; created and deleted count the rows gained and lost |
| CatalogBackfill.CatalogBackfill.SetDefaults | scripts/backfill_device_image_catalog_db.py:454-493 | the defaults become the desired ones whose image exists, and no other; the counters are the sizes of the differences |
| CatalogBackfill.CatalogBackfill.SeedManifestImages | scripts/backfill_device_image_catalog_db.py:597-625 | every manifest image has its targets as rows, all other images keep theirs, and the desired defaults are collected |
| CatalogBackfill.CatalogBackfill.Run | scripts/backfill_device_image_catalog_db.py:627-631 | ends settled; images outside the manifest keep their rows; created minus deleted is the change in size; over a settled catalog with distinct ids nothing changes and nothing is counted |
| ManifestBackfill.AscendingIsCanonical | scripts/backfill_manifest_compatible_devices.py:66-77 | sorted duplicate-free lists with the same names are equal |
| ManifestBackfill.NormalizeDevices | scripts/backfill_manifest_compatible_devices.py:48-77 | the loop yields the sorted duplicate-free list of canonical names |
| ManifestBackfill.NormalizedIsFixpoint | scripts/backfill_manifest_compatible_devices.py:48-77 | normalising twice is normalising once |
| ManifestBackfill.SharedEntriesAgree | scripts/backfill_manifest_compatible_devices.py:94-107 | afterwards every entry of a shared artifact has, once normalised, the union of its group |
| ManifestBackfill.ListIsUnionIff | scripts/backfill_manifest_compatible_devices.py:104-107 | its stored list is that union iff it was rewritten or was in normal form |
| ManifestBackfill.EntryOutcome | scripts/backfill_manifest_compatible_devices.py:94-115 | an entry is rewritten iff another has its artifact and a device of the group is missing in its list; it then has the sorted names of all devices of the group |
| ManifestBackfill.LeqIsAlphabetical | scripts/backfill_manifest_compatible_devices.py:76 | the order of the list is alphabetical |
| ManifestBackfill.SecondRunIsQuiet | scripts/backfill_manifest_compatible_devices.py:80-117 | a second run updates nothing |
| ManifestBackfill.Group | scripts/backfill_manifest_compatible_devices.py:85-92 | entries are grouped by artifact in order |
| ManifestBackfill.Collect | scripts/backfill_manifest_compatible_devices.py:98-102 | the raw names of a group, device before compatible devices, in order |
| ManifestBackfill.MergeGroup | scripts/backfill_manifest_compatible_devices.py:104-115 | exactly the members whose normalised list differs are rewritten and reported |
| ManifestBackfill.BackfillManifest | scripts/backfill_manifest_compatible_devices.py:80-117 | in place, exactly the stale entries of shared artifacts get their group's union and are reported |

## Left out

- OverlayHealth.SelfHealing: passes are atomic; the interleaving of a repair with a declaration at an await is not modelled, nor the re-check of tracking that guards it.
- OvsReconnectOrder.OneStalePortIff: the closed form is for one stale port whose links lead to different ports; for several stale ports RestartReconnectsIff follows the links step by step.
- OvsBookkeeping.RunKeepsBook: the runs start where every reservation has its port; from loaded reservations without one only single steps are covered (DiscoveryContract, NewPortSharesIff).
- OvsBookkeeping.RunKeepsBridge: assumes that port names, generated from random bits, are new to the bridge.
- DeployLock.HeartbeatHoldsTheKey: no bound on the wait for the local lock is claimed, the timeout starts only behind it; clock differences between agent and Redis are not modelled.
- CatalogBackfill.CatalogBackfill.EnsureImage: the update of the payload of an image that exists is left out, as an image is only its id here.
- CatalogBackfill.CatalogBackfill.Run: vendors, aliases, revisions, image metadata, custom devices, warnings and the counters for discovered devices and created images are left out.
- ManifestBackfill.BackfillManifest: the artifact key of an entry is a field; how it is derived from kind, filename, reference and id is left out.
- The numbers of reprovisioned ports and reconnected links in the report of a restart; only its errors are counted.
- Creation of the bridge itself, exceptions raised by spawning a command, and the JSON encoding of the cache file.
- Writing the files of the tag allocator and of the driver: what was saved is taken to be current; placeholder reservations recovered from the bridge, reconciliation with it, and what a corrupt file would give.
- Discovery's parsing of command output, container listings and interface indexes: the readings are inputs.
- Veth pairs, container namespaces and kernel devices behind OVS ports: of a port only the bridge side is modelled.
- `hot_disconnect`, external interfaces, `connect_to_external`, the driver's own VXLAN tunnels: they share or drop tracking by design.
- Path-MTU discovery, bridges and VTEPs of the overlay manager beyond link tunnels.
- Lock status and listing, the no-op lock manager, two agents whose ids contain a colon.
- The terminal side of the console bridge, other readiness probes, HTTP handlers, metrics, vendor data: I/O or easy members.
