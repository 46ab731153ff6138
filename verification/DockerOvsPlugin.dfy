/** The plugin object: fields updated by the driver calls, cursor loops in the allocators, sweeps in
    the lab cleanup; each method proved against VlanPools and DockerPlugin. */
module DockerOvsPlugin {
  import opened Wrappers
  import opened VlanPools
  import opened DockerPlugin

  class DockerOvsPlugin {
    var allocatedVlans: set<int>
    var allocatedLinkedVlans: set<int>
    var globalNextVlan: int
    var globalNextLinkedVlan: int
    var labBridges: map<string, set<string>>
    var networks: map<string, Network>
    var endpoints: map<string, Endpoint>

    constructor ()
      ensures State() == FRESH
    {
      allocatedVlans, allocatedLinkedVlans := {}, {};
      globalNextVlan, globalNextLinkedVlan := VLAN_RANGE_START, LINKED_VLAN_START;
      labBridges, networks, endpoints := map[], map[], map[];
    }

    function PoolState(): Pools
      reads this
    {
      Pools(allocatedVlans, allocatedLinkedVlans, globalNextVlan, globalNextLinkedVlan)
    }

    function State(): Plugin
      reads this
    {
      Plugin(PoolState(), labBridges, networks, endpoints)
    }

    /** One pass over a range, starting at its cursor. */
    method Walk(used: set<int>, lo: int, hi: int, cursor: int) returns (found: Option<int>)
      requires lo <= hi
      ensures found == Search(used, lo, hi, cursor, hi - lo + 1)
    {
      var vlan := cursor;
      for attempt := 0 to hi - lo + 1
        invariant Search(used, lo, hi, cursor, hi - lo + 1) == Search(used, lo, hi, vlan, hi - lo + 1 - attempt)
      {
        if vlan !in used {
          return Some(vlan);
        }
        vlan := if vlan + 1 > hi then lo else vlan + 1;
      }
      return None;
    }

    method AllocateVlan(onBridge: set<int>) returns (vlan: Option<int>)
      modifies this`allocatedVlans, this`allocatedLinkedVlans, this`globalNextVlan, this`globalNextLinkedVlan
      ensures (PoolState(), vlan) == Allocate(old(PoolState()), onBridge)
    {
      var used := allocatedVlans + allocatedLinkedVlans + onBridge;
      vlan := Walk(used, VLAN_RANGE_START, VLAN_RANGE_END, globalNextVlan);
      if vlan.Some? {
        allocatedVlans := allocatedVlans + {vlan.value};
        globalNextVlan := if vlan.value >= VLAN_RANGE_END then VLAN_RANGE_START else vlan.value + 1;
        return;
      }
      vlan := Walk(used, LINKED_VLAN_START, LINKED_VLAN_END, globalNextLinkedVlan);
      if vlan.Some? {
        allocatedLinkedVlans := allocatedLinkedVlans + {vlan.value};
        globalNextLinkedVlan := if vlan.value >= LINKED_VLAN_END then LINKED_VLAN_START else vlan.value + 1;
      }
    }

    method AllocateLinkedVlan(onBridge: set<int>) returns (vlan: Option<int>)
      modifies this`allocatedVlans, this`allocatedLinkedVlans, this`globalNextVlan, this`globalNextLinkedVlan
      ensures (PoolState(), vlan) == AllocateLinked(old(PoolState()), onBridge)
    {
      var used := allocatedVlans + allocatedLinkedVlans + onBridge;
      vlan := Walk(used, LINKED_VLAN_START, LINKED_VLAN_END, globalNextLinkedVlan);
      if vlan.Some? {
        allocatedLinkedVlans := allocatedLinkedVlans + {vlan.value};
        globalNextLinkedVlan := if vlan.value >= LINKED_VLAN_END then LINKED_VLAN_START else vlan.value + 1;
        return;
      }
      vlan := Walk(used, VLAN_RANGE_START, VLAN_RANGE_END, globalNextVlan);
      if vlan.Some? {
        allocatedVlans := allocatedVlans + {vlan.value};
        globalNextVlan := if vlan.value >= VLAN_RANGE_END then VLAN_RANGE_START else vlan.value + 1;
      }
    }

    method ReleaseVlan(vlan: int)
      modifies this`allocatedVlans, this`allocatedLinkedVlans
      ensures PoolState() == Release(old(PoolState()), vlan)
    {
      allocatedVlans := allocatedVlans - {vlan};
      allocatedLinkedVlans := allocatedLinkedVlans - {vlan};
    }

    /** _ensure_bridge; false where creating the shared bridge fails. */
    method EnsureBridge(labId: string, bridgeOk: bool) returns (ok: bool)
      modifies this`labBridges
      ensures ok <==> labId in old(labBridges) || bridgeOk
      ensures labBridges == if ok && labId !in old(labBridges) then old(labBridges)[labId := {}] else old(labBridges)
    {
      if labId in labBridges { return true; }
      if !bridgeOk { return false; }
      labBridges := labBridges[labId := {}];
      return true;
    }

    method HandleCreateNetwork(id: string, labId: string, interfaceName: string, bridgeOk: bool)
      modifies this`networks, this`labBridges
      ensures State() == Step(old(State()), CreateNetwork(id, labId, interfaceName, bridgeOk))
    {
      if labId == "" { return; }
      var ok := EnsureBridge(labId, bridgeOk);
      if ok {
        networks := networks[id := Network(labId, interfaceName)];
        labBridges := labBridges[labId := labBridges[labId] + {id}];
      }
    }

    /** _maybe_delete_bridge. */
    method MaybeDeleteBridge(labId: string)
      modifies this`labBridges
      ensures labBridges == if labId in old(labBridges) && old(labBridges)[labId] == {} then old(labBridges) - {labId}
                            else old(labBridges)
    {
      if labId in labBridges && labBridges[labId] == {} {
        labBridges := labBridges - {labId};
      }
    }

    method HandleDeleteNetwork(id: string)
      modifies this`networks, this`labBridges
      ensures State() == Step(old(State()), DeleteNetwork(id))
    {
      if id in networks {
        var labId := networks[id].labId;
        networks := networks - {id};
        if labId in labBridges {
          labBridges := labBridges[labId := labBridges[labId] - {id}];
          MaybeDeleteBridge(labId);
          assert labBridges == Step(old(State()), DeleteNetwork(id)).labs;
        }
      }
    }

    method HandleCreateEndpoint(networkId: string, endpointId: string, hostVeth: string, contVeth: string,
                                onBridge: set<int>, vethOk: bool, attachOk: bool) returns (ok: bool)
      modifies this
      ensures State() == Step(old(State()),
                              CreateEndpoint(networkId, endpointId, hostVeth, contVeth, onBridge, vethOk, attachOk))
      ensures ok ==> endpointId in endpoints && endpoints[endpointId].hostVeth == hostVeth
    {
      if networkId !in networks || networks[networkId].labId !in labBridges { return false; }
      var vlan := AllocateVlan(onBridge);
      if vlan == None || !vethOk || !attachOk { return false; }
      endpoints := endpoints[endpointId := Endpoint(networkId, hostVeth, contVeth, vlan.value)];
      return true;
    }

    method HandleDeleteEndpoint(endpointId: string)
      modifies this
      ensures State() == Step(old(State()), DeleteEndpoint(endpointId))
    {
      if endpointId in endpoints {
        var endpoint := endpoints[endpointId];
        endpoints := endpoints - {endpointId};
        ReleaseVlan(endpoint.tag);
      }
    }

    method RepairOne(endpointId: string, hostVeth: string, contVeth: string, repaired: bool)
      modifies this`endpoints
      ensures State() == Step(old(State()), RepairEndpoint(endpointId, hostVeth, contVeth, repaired))
    {
      if endpointId in endpoints && repaired {
        endpoints := endpoints[endpointId := endpoints[endpointId].(hostVeth := hostVeth, contVeth := contVeth)];
      }
    }

    /** The pools, when the state has been read back. */
    method RebuildPools()
      modifies this`allocatedVlans, this`allocatedLinkedVlans
      ensures State() == Step(old(State()), Reload)
    {
      allocatedVlans := set e | e in endpoints :: endpoints[e].tag;
      allocatedLinkedVlans := {};
      assert allocatedVlans == TagsOf(State(), endpoints.Keys);
    }

    /** First sweep of the cleanup: which endpoints sit on networks of the lab. */
    method CollectEndpoints(labId: string) returns (toRemove: set<string>)
      ensures toRemove == EndpointsOfLab(State(), labId)
    {
      toRemove := {};
      var todo := endpoints.Keys;
      while todo != {}
        invariant todo <= endpoints.Keys
        invariant toRemove ==
                    set e | e in endpoints && e !in todo && NetworkOfLab(State(), endpoints[e].networkId, labId)
        decreases todo
      {
        var e :| e in todo;
        todo := todo - {e};
        var networkId := endpoints[e].networkId;
        if networkId in networks && networks[networkId].labId == labId {
          toRemove := toRemove + {e};
        }
      }
    }

    /** Second sweep: take them out one by one, releasing each tag. */
    method RemoveCollected(toRemove: set<string>)
      modifies this`endpoints, this`allocatedVlans, this`allocatedLinkedVlans
      ensures State() == RemoveEndpoints(old(State()), toRemove)
    {
      ghost var s, done: set<string> := State(), {};
      var todo := toRemove;
      assert s.endpoints - {} == s.endpoints && TagsOf(s, {}) == {};
      while todo != {}
        invariant todo + done == toRemove && todo !! done && State() == RemoveEndpoints(s, done)
        decreases todo
      {
        var e :| e in todo;
        todo := todo - {e};
        RemoveOneMore(s, done, e);
        done := done + {e};
        if e in endpoints {
          var endpoint := endpoints[e];
          endpoints := endpoints - {e};
          ReleaseVlan(endpoint.tag);
        }
      }
      assert done == toRemove;
    }

    method FullLabCleanup(labId: string)
      modifies this
      ensures State() == Step(old(State()), CleanupLab(labId))
    {
      if labId !in labBridges { return; }
      var toRemove := CollectEndpoints(labId);
      RemoveCollected(toRemove);
      ghost var s := State();
      var todo := networks.Keys;
      while todo != {}
        invariant todo <= s.networks.Keys
        invariant networks == s.networks - (set n | n in s.networks && n !in todo && s.networks[n].labId == labId)
        invariant State() == s.(networks := networks)
        decreases todo
      {
        var n :| n in todo;
        todo := todo - {n};
        if n in networks && networks[n].labId == labId {
          networks := networks - {n};
        }
      }
      labBridges := labBridges - {labId};
    }
  }

  /** Taking out one more endpoint is one more deletion. */
  lemma RemoveOneMore(s: Plugin, eps: set<string>, e: string)
    requires e !in eps
    ensures RemoveEndpoints(s, eps + {e}) == RemoveEndpoint(RemoveEndpoints(s, eps), e)
  {
    var s1, s2 := RemoveEndpoints(s, eps), RemoveEndpoints(s, eps + {e});
    if e in s.endpoints {
      assert TagsOf(s, eps + {e}) == TagsOf(s, eps) + {s.endpoints[e].tag};
      assert s2.endpoints == s1.endpoints - {e};
    } else {
      assert TagsOf(s, eps + {e}) == TagsOf(s, eps);
      assert s2.endpoints == s1.endpoints;
    }
  }
}
