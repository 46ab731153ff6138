/** The Docker network driver's state and its calls (agent/network/docker_plugin.py): networks per
    lab, endpoints with VLAN tags, lab cleanup.  `Step` is one driver call; the class in
    DockerOvsPlugin.dfy performs it on fields. */
module DockerPlugin {
  import opened Wrappers
  import opened VlanPools

  datatype Network = Network(labId: string, interfaceName: string)

  datatype Endpoint = Endpoint(networkId: string, hostVeth: string, contVeth: string, tag: int)

  /** `labs` is lab_bridges: the network ids of each tracked lab. */
  datatype Plugin = Plugin(pools: Pools, labs: map<string, set<string>>, networks: map<string, Network>,
                           endpoints: map<string, Endpoint>)

  /** A driver call with the outcomes of its commands.  Reload: the agent restarts and reads the driver's
      state back from its file. */
  datatype Call =
    | CreateNetwork(id: string, labId: string, interfaceName: string, bridgeOk: bool)
    | DeleteNetwork(id: string)
    | CreateEndpoint(networkId: string, endpointId: string, hostVeth: string, contVeth: string,
                     onBridge: set<int>, vethOk: bool, attachOk: bool)
    | DeleteEndpoint(endpointId: string)
    | RepairEndpoint(endpointId: string, hostVeth: string, contVeth: string, repaired: bool)
    | CleanupLab(labId: string)
    | ReserveLinkedTag(onBridge: set<int>)
    | Reload

  /** handle_create_network, with _ensure_bridge. */
  function AddNetwork(s: Plugin, id: string, labId: string, interfaceName: string, bridgeOk: bool): Plugin {
    if labId == "" || (labId !in s.labs && !bridgeOk) then s
    else
      var ids := if labId in s.labs then s.labs[labId] else {};
      s.(networks := s.networks[id := Network(labId, interfaceName)], labs := s.labs[labId := ids + {id}])
  }

  /** handle_delete_network, with _maybe_delete_bridge. */
  function RemoveNetwork(s: Plugin, id: string): Plugin {
    if id !in s.networks then s
    else
      var labId := s.networks[id].labId;
      var s1 := s.(networks := s.networks - {id});
      if labId !in s.labs then s1
      else
        var ids := s.labs[labId] - {id};
        s1.(labs := if ids == {} then s.labs - {labId} else s.labs[labId := ids])
  }

  /** handle_create_endpoint: the tag stays reserved when the veth pair or the port fails. */
  function AddEndpoint(s: Plugin, networkId: string, endpointId: string, hostVeth: string, contVeth: string,
                       onBridge: set<int>, vethOk: bool, attachOk: bool): Plugin
  {
    if networkId !in s.networks || s.networks[networkId].labId !in s.labs then s
    else
      var (pools, tag) := Allocate(s.pools, onBridge);
      if tag == None || !vethOk || !attachOk then s.(pools := pools)
      else s.(pools := pools,
             endpoints := s.endpoints[endpointId := Endpoint(networkId, hostVeth, contVeth, tag.value)])
  }

  /** handle_delete_endpoint. */
  function RemoveEndpoint(s: Plugin, endpointId: string): Plugin {
    if endpointId !in s.endpoints then s
    else s.(pools := Release(s.pools, s.endpoints[endpointId].tag), endpoints := s.endpoints - {endpointId})
  }

  /** One endpoint of _repair_endpoints_locked: only the veth names change, and only on success. */
  function Repair(s: Plugin, endpointId: string, hostVeth: string, contVeth: string, repaired: bool): Plugin {
    if endpointId !in s.endpoints || !repaired then s
    else s.(endpoints := s.endpoints[endpointId :=
                                               s.endpoints[endpointId].(hostVeth := hostVeth, contVeth := contVeth)])
  }

  /** _deserialize_state: the isolated pool is rebuilt from the endpoints, the linked one starts empty. */
  function Reloaded(s: Plugin): Plugin {
    s.(pools := s.pools.(isolated := TagsOf(s, s.endpoints.Keys), linked := {}))
  }

  // ---- Lab cleanup ----

  predicate NetworkOfLab(s: Plugin, id: string, labId: string) {
    id in s.networks && s.networks[id].labId == labId
  }

  /** The endpoints on networks of the lab. */
  function EndpointsOfLab(s: Plugin, labId: string): set<string> {
    set e | e in s.endpoints && NetworkOfLab(s, s.endpoints[e].networkId, labId)
  }

  function NetworksOfLab(s: Plugin, labId: string): set<string> {
    set n | n in s.networks && s.networks[n].labId == labId
  }

  function TagsOf(s: Plugin, eps: set<string>): set<int> {
    set e | e in eps && e in s.endpoints :: s.endpoints[e].tag
  }

  /** Take the endpoints `eps` out and release their tags. */
  function RemoveEndpoints(s: Plugin, eps: set<string>): Plugin {
    var tags := TagsOf(s, eps);
    s.(endpoints := s.endpoints - eps,
       pools := s.pools.(isolated := s.pools.isolated - tags, linked := s.pools.linked - tags))
  }

  /** _full_lab_cleanup. */
  function Cleanup(s: Plugin, labId: string): Plugin {
    if labId !in s.labs then s
    else RemoveEndpoints(s, EndpointsOfLab(s, labId)).(networks := s.networks - NetworksOfLab(s, labId),
                                                       labs := s.labs - {labId})
  }

  // ---- Runs ----

  function Step(s: Plugin, call: Call): Plugin {
    match call
    case CreateNetwork(id, labId, iface, ok) => AddNetwork(s, id, labId, iface, ok)
    case DeleteNetwork(id) => RemoveNetwork(s, id)
    case CreateEndpoint(n, e, hv, cv, used, vethOk, attachOk) => AddEndpoint(s, n, e, hv, cv, used, vethOk, attachOk)
    case DeleteEndpoint(e) => RemoveEndpoint(s, e)
    case RepairEndpoint(e, hv, cv, ok) => Repair(s, e, hv, cv, ok)
    case CleanupLab(labId) => Cleanup(s, labId)
    case ReserveLinkedTag(used) => s.(pools := AllocateLinked(s.pools, used).0)
    case Reload => Reloaded(s)
  }

  function Run(s: Plugin, calls: seq<Call>): Plugin
    decreases |calls|
  {
    if calls == [] then s else Run(Step(s, calls[0]), calls[1..])
  }

  const FRESH: Plugin := Plugin(Pools({}, {}, VLAN_RANGE_START, LINKED_VLAN_START), map[], map[], map[])

  // ---- Endpoint isolation ----

  ghost predicate DistinctTags(s: Plugin) {
    forall e, f :: e in s.endpoints && f in s.endpoints && e != f ==> s.endpoints[e].tag != s.endpoints[f].tag
  }

  /** Live endpoints have pairwise distinct, reserved tags. */
  ghost predicate Isolated(s: Plugin) {
    && CursorsInRange(s.pools) && DistinctTags(s)
    && forall e :: e in s.endpoints ==> s.endpoints[e].tag in Reserved(s.pools)
  }

  lemma RemoveEndpointsKeepsIsolation(s: Plugin, eps: set<string>)
    requires Isolated(s)
    ensures Isolated(RemoveEndpoints(s, eps))
    ensures Reserved(RemoveEndpoints(s, eps).pools) == Reserved(s.pools) - TagsOf(s, eps)
  {
    var s' := RemoveEndpoints(s, eps);
    assert Reserved(s'.pools) == Reserved(s.pools) - TagsOf(s, eps);
    forall e | e in s'.endpoints ensures s'.endpoints[e].tag !in TagsOf(s, eps) {
      assert forall f :: f in eps && f in s.endpoints ==> s.endpoints[f].tag != s.endpoints[e].tag;
    }
  }

  lemma StepKeepsIsolation(s: Plugin, call: Call)
    requires Isolated(s)
    ensures Isolated(Step(s, call)) && (ValidPools(s.pools) && !call.Reload? ==> ValidPools(Step(s, call).pools))
  {
    match call
    case CreateEndpoint(n, e, hv, cv, used, vethOk, attachOk) =>
      AllocateContract(s.pools, used);
    case DeleteEndpoint(e) =>
      if e in s.endpoints {
        ReleaseContract(s.pools, s.endpoints[e].tag);
        var s' := Step(s, call);
        assert forall f :: f in s'.endpoints ==> f in s.endpoints && f != e;
      }
    case CleanupLab(labId) => RemoveEndpointsKeepsIsolation(s, EndpointsOfLab(s, labId));
    case ReserveLinkedTag(used) => AllocateLinkedContract(s.pools, used);
    case _ =>
  }

  ghost predicate NoReload(calls: seq<Call>) { forall i :: 0 <= i < |calls| ==> !calls[i].Reload? }

  /** Isolation over every run of the driver, with every failure exit and reloads of the state; between
      reloads each pool also stays in its range. */
  lemma {:induction false} RunKeepsIsolation(s: Plugin, calls: seq<Call>)
    requires Isolated(s)
    ensures Isolated(Run(s, calls))
    ensures ValidPools(s.pools) && NoReload(calls) ==> ValidPools(Run(s, calls).pools)
    decreases |calls|
  {
    if calls != [] {
      StepKeepsIsolation(s, calls[0]);
      RunKeepsIsolation(Step(s, calls[0]), calls[1..]);
    }
  }

  // ---- Leaked tags ----

  /** The tag is reserved although no endpoint has it. */
  ghost predicate Leaked(s: Plugin, tag: int) {
    tag in Reserved(s.pools) && forall e :: e in s.endpoints ==> s.endpoints[e].tag != tag
  }

  /** Creating an endpoint leaks the tag it allocated exactly when it fails after the allocation. */
  lemma FailedCreateLeaks(s: Plugin, networkId: string, endpointId: string, hostVeth: string, contVeth: string,
                          onBridge: set<int>, vethOk: bool, attachOk: bool)
    requires Isolated(s) && networkId in s.networks && s.networks[networkId].labId in s.labs
    requires Allocate(s.pools, onBridge).1.Some?
    ensures Leaked(AddEndpoint(s, networkId, endpointId, hostVeth, contVeth, onBridge, vethOk, attachOk),
                   Allocate(s.pools, onBridge).1.value)
            <==> !(vethOk && attachOk)
  {
    AllocateContract(s.pools, onBridge);
    var s' := AddEndpoint(s, networkId, endpointId, hostVeth, contVeth, onBridge, vethOk, attachOk);
    if vethOk && attachOk {
      assert endpointId in s'.endpoints && s'.endpoints[endpointId].tag == Allocate(s.pools, onBridge).1.value;
    }
  }

  lemma StepKeepsLeak(s: Plugin, call: Call, tag: int)
    requires Isolated(s) && Leaked(s, tag)
    ensures Leaked(Step(s, call), tag) <==> !call.Reload?
  {
    match call
    case CreateEndpoint(n, e, hv, cv, used, vethOk, attachOk) => AllocateContract(s.pools, used);
    case CleanupLab(labId) => RemoveEndpointsKeepsIsolation(s, EndpointsOfLab(s, labId));
    case ReserveLinkedTag(used) => AllocateLinkedContract(s.pools, used);
    case _ =>
  }

  /** A leaked tag is lost until the state is reloaded: no run of driver calls, lab cleanup included,
      frees it or gives it to an endpoint before that. */
  lemma {:induction false} LeakLastsUntilReload(s: Plugin, calls: seq<Call>, tag: int)
    requires Isolated(s) && Leaked(s, tag) && NoReload(calls)
    ensures Leaked(Run(s, calls), tag)
    decreases |calls|
  {
    if calls != [] {
      StepKeepsIsolation(s, calls[0]);
      StepKeepsLeak(s, calls[0], tag);
      LeakLastsUntilReload(Step(s, calls[0]), calls[1..], tag);
    }
  }

  /** Reloading frees exactly the tags that no endpoint has, tags reserved for links among them. */
  lemma ReloadFreesLeaks(s: Plugin)
    requires Isolated(s)
    ensures var s' := Reloaded(s);
            && s'.endpoints == s.endpoints && Isolated(s')
            && (forall tag :: tag in Reserved(s.pools) && tag !in Reserved(s'.pools) <==> Leaked(s, tag))
            && (forall tag :: !Leaked(s', tag))
  {
    var s' := Reloaded(s);
    assert forall e :: e in s.endpoints ==> e in s.endpoints.Keys && s.endpoints[e].tag in TagsOf(s, s.endpoints.Keys);
  }

  // ---- What cleanup frees ----

  /** Cleaning up a tracked lab frees exactly the tags of that lab's endpoints and leaves every other
      lab's endpoints, tags, networks and tracking alone.  Release is by tag value, so this rests on
      the distinctness of tags. */
  lemma CleanupIsScoped(s: Plugin, labId: string)
    requires Isolated(s) && labId in s.labs
    ensures var s' := Cleanup(s, labId);
            && Reserved(s'.pools) == Reserved(s.pools) - TagsOf(s, EndpointsOfLab(s, labId))
            && (forall e :: e in s.endpoints && !NetworkOfLab(s, s.endpoints[e].networkId, labId) ==>
                  e in s'.endpoints && s'.endpoints[e] == s.endpoints[e] && s.endpoints[e].tag in Reserved(s'.pools))
            && (forall e :: e in s'.endpoints ==> e in s.endpoints && !NetworkOfLab(s, s.endpoints[e].networkId, labId))
            && (forall n :: n in s'.networks <==> n in s.networks && s.networks[n].labId != labId)
            && (forall n :: n in s'.networks ==> s'.networks[n] == s.networks[n])
            && s'.labs == s.labs - {labId}
  {
    RemoveEndpointsKeepsIsolation(s, EndpointsOfLab(s, labId));
    StepKeepsIsolation(s, CleanupLab(labId));
  }

  // ---- Networks and labs ----

  /** Networks and the per-lab id sets are mutually inverse, and a lab is tracked exactly while it
      has a network. */
  ghost predicate NetworksAgree(s: Plugin) {
    && (forall n :: n in s.networks ==> s.networks[n].labId in s.labs && n in s.labs[s.networks[n].labId])
    && (forall l :: l in s.labs ==> s.labs[l] != {})
    && (forall l, n :: l in s.labs && n in s.labs[l] ==> NetworkOfLab(s, n, l))
  }

  lemma RemoveNetworkKeepsAgreement(s: Plugin, id: string)
    requires NetworksAgree(s)
    ensures NetworksAgree(RemoveNetwork(s, id))
  {
    if id in s.networks {
      var s', labId := RemoveNetwork(s, id), s.networks[id].labId;
      forall n | n in s'.networks ensures s'.networks[n].labId in s'.labs && n in s'.labs[s'.networks[n].labId] {
        assert n in s.labs[s.networks[n].labId];
      }
      forall l, n | l in s'.labs && n in s'.labs[l] ensures NetworkOfLab(s', n, l) {
        assert NetworkOfLab(s, n, l);
      }
    }
  }

  lemma CleanupKeepsAgreement(s: Plugin, labId: string)
    requires NetworksAgree(s)
    ensures NetworksAgree(Cleanup(s, labId))
  {
    if labId in s.labs {
      var s' := Cleanup(s, labId);
      forall l, n | l in s'.labs && n in s'.labs[l] ensures NetworkOfLab(s', n, l) {
        assert NetworkOfLab(s, n, l);
      }
    }
  }

  /** Creating a network keeps the agreement exactly when its id is not taken by another lab (or the
      call is rejected). */
  lemma AddNetworkKeepsAgreement(s: Plugin, id: string, labId: string, iface: string, bridgeOk: bool)
    requires NetworksAgree(s)
    ensures NetworksAgree(AddNetwork(s, id, labId, iface, bridgeOk))
            <==> id !in s.networks || s.networks[id].labId == labId || labId == "" || (labId !in s.labs && !bridgeOk)
  {
    var s' := AddNetwork(s, id, labId, iface, bridgeOk);
    if s' != s {
      if id in s.networks && s.networks[id].labId != labId {
        var other := s.networks[id].labId;
        assert other in s'.labs && id in s'.labs[other] && !NetworkOfLab(s', id, other);
      } else {
        forall l, n | l in s'.labs && n in s'.labs[l] ensures NetworkOfLab(s', n, l) {
          assert n != id ==> NetworkOfLab(s, n, l);
          assert n == id && l != labId ==> NetworkOfLab(s, n, l);
        }
      }
    }
  }

  /** Docker hands out a fresh id for every new network. */
  ghost predicate FreshIds(s: Plugin, calls: seq<Call>)
    decreases |calls|
  {
    calls == [] || ((calls[0].CreateNetwork? ==> calls[0].id !in s.networks) && FreshIds(Step(s, calls[0]), calls[1..]))
  }

  lemma {:induction false} RunKeepsNetworksAgreeing(s: Plugin, calls: seq<Call>)
    requires NetworksAgree(s) && FreshIds(s, calls)
    ensures NetworksAgree(Run(s, calls))
    decreases |calls|
  {
    if calls != [] {
      match calls[0] {
        case CreateNetwork(id, labId, iface, ok) => AddNetworkKeepsAgreement(s, id, labId, iface, ok);
        case DeleteNetwork(id) => RemoveNetworkKeepsAgreement(s, id);
        case CleanupLab(labId) => CleanupKeepsAgreement(s, labId);
        case _ => assert Step(s, calls[0]).networks == s.networks && Step(s, calls[0]).labs == s.labs;
      }
      RunKeepsNetworksAgreeing(Step(s, calls[0]), calls[1..]);
    }
  }

  /** Both results for the plugin as it starts. */
  lemma EveryRunFromFresh(calls: seq<Call>)
    requires FreshIds(FRESH, calls)
    ensures Isolated(Run(FRESH, calls)) && NetworksAgree(Run(FRESH, calls))
  {
    RunKeepsIsolation(FRESH, calls);
    RunKeepsNetworksAgreeing(FRESH, calls);
  }
}
