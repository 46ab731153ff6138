/** What single driver calls leave, and which of them leak a tag. */
module DockerOutcomes {
  import opened Wrappers
  import opened VlanPools
  import opened DockerPlugin

  ghost predicate SameCursors(p: Pools, p': Pools) {
    p'.nextIsolated == p.nextIsolated && p'.nextLinked == p.nextLinked
  }

  ghost predicate SameNetworks(s: Plugin, s': Plugin) { s'.networks == s.networks && s'.labs == s.labs }

  // ---- Endpoints ----

  /** Deleting an endpoint takes exactly it out and frees exactly its tag. */
  lemma DeleteEndpointOutcome(s: Plugin, e: string)
    requires Isolated(s)
    ensures var s' := Step(s, DeleteEndpoint(e));
            && SameNetworks(s, s') && SameCursors(s.pools, s'.pools)
            && (e !in s.endpoints ==> s' == s)
            && (e in s.endpoints ==>
                  s'.endpoints == s.endpoints - {e} && Reserved(s'.pools) == Reserved(s.pools) - {s.endpoints[e].tag})
  {
    if e in s.endpoints { ReleaseContract(s.pools, s.endpoints[e].tag); }
  }

  /** The tag is in range, and neither reserved nor on the bridge. */
  ghost predicate Free(s: Plugin, onBridge: set<int>, tag: int) {
    100 <= tag <= 4000 && tag !in Reserved(s.pools) && tag !in onBridge
  }

  /** From `s` to `s'` just the tag was reserved. */
  ghost predicate Reserves(s: Plugin, s': Plugin, tag: int) {
    Reserved(s'.pools) == Reserved(s.pools) + {tag} && tag !in Reserved(s.pools)
  }

  /** Creating an endpoint is rejected without an effect on an unknown network, and when no tag is free; else
      it reserves one free tag, an isolated one while there is any, and records the endpoint on its network,
      with its veth names and this tag, exactly when veth pair and attachment worked. */
  lemma CreateEndpointOutcome(s: Plugin, call: Call)
    requires Isolated(s) && call.CreateEndpoint?
    ensures var s' := Step(s, call);
            var known := call.networkId in s.networks && s.networks[call.networkId].labId in s.labs;
            var free := exists tag :: Free(s, call.onBridge, tag);
            && SameNetworks(s, s')
            && (!(known && free) ==> s' == s)
            && (known && free ==>
                  exists tag :: Free(s, call.onBridge, tag) && Reserves(s, s', tag)
                    && (tag <= 2049 <==> exists u :: u <= 2049 && Free(s, call.onBridge, u))
                    && s'.endpoints
                       == if call.vethOk && call.attachOk
                          then s.endpoints[call.endpointId :=
                                             Endpoint(call.networkId, call.hostVeth, call.contVeth, tag)]
                          else s.endpoints)
  {
    AllocateContract(s.pools, call.onBridge);
    var tag := Allocate(s.pools, call.onBridge).1;
    if tag.Some? {
      assert Free(s, call.onBridge, tag.value);
      PrefersIsolated(s, call.onBridge);
      if call.networkId in s.networks && s.networks[call.networkId].labId in s.labs {
        assert Reserves(s, Step(s, call), tag.value);
      }
    } else {
      forall v ensures !Free(s, call.onBridge, v) {
        assert 100 <= v <= 4000 ==> v in Reserved(s.pools) + call.onBridge;
      }
    }
  }

  lemma PrefersIsolated(s: Plugin, onBridge: set<int>)
    requires Isolated(s) && Allocate(s.pools, onBridge).1.Some?
    ensures Allocate(s.pools, onBridge).1.value <= 2049 <==> exists u :: u <= 2049 && Free(s, onBridge, u)
  {
    AllocateContract(s.pools, onBridge);
    var used := Reserved(s.pools) + onBridge;
    if !Full(used, 100, 2049) {
      var v :| 100 <= v <= 2049 && v !in used;
      assert Free(s, onBridge, v);
    } else {
      forall u | u <= 2049 ensures !Free(s, onBridge, u) { assert 100 <= u ==> u in used; }
    }
  }

  lemma PrefersLinked(s: Plugin, onBridge: set<int>)
    requires Isolated(s) && AllocateLinked(s.pools, onBridge).1.Some?
    ensures AllocateLinked(s.pools, onBridge).1.value >= 2050 <==> exists u :: u >= 2050 && Free(s, onBridge, u)
  {
    AllocateLinkedContract(s.pools, onBridge);
    var used := Reserved(s.pools) + onBridge;
    if !Full(used, 2050, 4000) {
      var v :| 2050 <= v <= 4000 && v !in used;
      assert Free(s, onBridge, v);
    } else {
      forall u | u >= 2050 ensures !Free(s, onBridge, u) { assert u <= 4000 ==> u in used; }
    }
  }

  /** A reservation for a link takes one free tag, a linked one while there is any, and changes nothing else. */
  lemma ReserveLinkedOutcome(s: Plugin, onBridge: set<int>)
    requires Isolated(s)
    ensures var s' := Step(s, ReserveLinkedTag(onBridge));
            && SameNetworks(s, s') && s'.endpoints == s.endpoints
            && ((forall tag :: !Free(s, onBridge, tag)) ==> s' == s)
            && ((exists tag :: Free(s, onBridge, tag)) ==>
                  exists tag :: Free(s, onBridge, tag) && Reserves(s, s', tag)
                    && (tag >= 2050 <==> exists u :: u >= 2050 && Free(s, onBridge, u)))
  {
    AllocateLinkedContract(s.pools, onBridge);
    var tag := AllocateLinked(s.pools, onBridge).1;
    if tag.Some? {
      PrefersLinked(s, onBridge);
      assert Free(s, onBridge, tag.value) && Reserves(s, Step(s, ReserveLinkedTag(onBridge)), tag.value);
    } else {
      forall v ensures !Free(s, onBridge, v) { assert 100 <= v <= 4000 ==> v in Reserved(s.pools) + onBridge; }
    }
  }

  /** The endpoint sits on a network of the lab. */
  ghost predicate OnLab(s: Plugin, e: string, labId: string) {
    && e in s.endpoints && s.endpoints[e].networkId in s.networks
    && s.networks[s.endpoints[e].networkId].labId == labId
  }

  /** Cleaning up a tracked lab takes out its endpoints, their tags, its networks and its record, and nothing
      of any other lab; an unknown lab is left alone. */
  lemma CleanupOutcome(s: Plugin, labId: string)
    requires Isolated(s)
    ensures var s' := Step(s, CleanupLab(labId));
            && SameCursors(s.pools, s'.pools) && (labId !in s.labs ==> s' == s)
            && (labId in s.labs ==>
                  && (forall e :: e in s'.endpoints <==> e in s.endpoints && !OnLab(s, e, labId))
                  && (forall e :: e in s'.endpoints ==> s'.endpoints[e] == s.endpoints[e])
                  && (forall tag :: tag in Reserved(s'.pools) <==>
                        tag in Reserved(s.pools) && !exists e :: OnLab(s, e, labId) && s.endpoints[e].tag == tag)
                  && (forall n :: n in s'.networks <==> n in s.networks && s.networks[n].labId != labId)
                  && (forall n :: n in s'.networks ==> s'.networks[n] == s.networks[n])
                  && s'.labs == s.labs - {labId})
  {
    if labId in s.labs {
      CleanupIsScoped(s, labId);
      var gone := EndpointsOfLab(s, labId);
      assert forall e :: e in gone <==> OnLab(s, e, labId);
      forall tag ensures tag in TagsOf(s, gone) <==> exists e :: OnLab(s, e, labId) && s.endpoints[e].tag == tag { }
    }
  }

  /** Reloading rebuilds the pools from the endpoints and keeps all else. */
  lemma ReloadOutcome(s: Plugin)
    ensures var s' := Step(s, Reload);
            && SameNetworks(s, s') && s'.endpoints == s.endpoints && SameCursors(s.pools, s'.pools)
            && forall tag :: tag in Reserved(s'.pools) <==> exists e :: e in s.endpoints && s.endpoints[e].tag == tag
  {
    assert s.endpoints.Keys <= s.endpoints.Keys;
    forall tag
      ensures tag in TagsOf(s, s.endpoints.Keys) <==> exists e :: e in s.endpoints && s.endpoints[e].tag == tag
    {
      if e :| e in s.endpoints && s.endpoints[e].tag == tag { assert e in s.endpoints.Keys; }
    }
  }

  /** A repair that worked changes the veth names of that endpoint and nothing else. */
  lemma RepairEndpointOutcome(s: Plugin, e: string, hostVeth: string, contVeth: string, repaired: bool)
    ensures var s' := Step(s, RepairEndpoint(e, hostVeth, contVeth, repaired));
            && SameNetworks(s, s') && s'.pools == s.pools && s'.endpoints.Keys == s.endpoints.Keys
            && (!repaired ==> s' == s)
            && forall f :: f in s.endpoints ==>
                 s'.endpoints[f] == if f == e && repaired
                                    then Endpoint(s.endpoints[e].networkId, hostVeth, contVeth, s.endpoints[e].tag)
                                    else s.endpoints[f]
  {
  }

  // ---- Networks ----

  /** Creating a network needs a lab, and for the lab's first network the bridge; it is then recorded under
      its lab and in the lab's ids, and nothing else changes. */
  lemma CreateNetworkOutcome(s: Plugin, id: string, labId: string, iface: string, bridgeOk: bool)
    ensures var s' := Step(s, CreateNetwork(id, labId, iface, bridgeOk));
            var accepted := labId != "" && (labId in s.labs || bridgeOk);
            && s'.pools == s.pools && s'.endpoints == s.endpoints
            && (!accepted ==> s' == s)
            && (accepted ==>
                  && s'.networks == s.networks[id := Network(labId, iface)] && s'.labs.Keys == s.labs.Keys + {labId}
                  && forall l :: l in s'.labs ==>
                       s'.labs[l] == (if l in s.labs then s.labs[l] else {}) + (if l == labId then {id} else {}))
  {
  }

  /** Deleting a network takes it out of the networks and of its lab's ids; the lab is forgotten exactly with
      its last network; every other network and lab stays as it is. */
  lemma DeleteNetworkOutcome(s: Plugin, id: string)
    requires NetworksAgree(s)
    ensures var s' := Step(s, DeleteNetwork(id));
            && s'.pools == s.pools && s'.endpoints == s.endpoints && s'.networks == s.networks - {id}
            && (forall l :: l in s.labs ==> (l in s'.labs <==> exists n :: n != id && NetworkOfLab(s, n, l)))
            && (forall l :: l in s'.labs ==> l in s.labs && s'.labs[l] == s.labs[l] - {id})
  {
    var s' := Step(s, DeleteNetwork(id));
    forall l | l in s.labs ensures l in s'.labs <==> exists n :: n != id && NetworkOfLab(s, n, l) {
      if l in s'.labs {
        RemoveNetworkKeepsAgreement(s, id);
        assert s'.labs[l] != {};
        var n :| n in s'.labs[l];
        assert NetworkOfLab(s', n, l) && NetworkOfLab(s, n, l);
      }
      if n :| n != id && NetworkOfLab(s, n, l) {
        assert n in s.labs[l];
        if id in s.networks && l == s.networks[id].labId { assert n in s.labs[l] - {id}; }
      }
    }
    if id in s.networks {
      forall l | l in s'.labs && l != s.networks[id].labId ensures id !in s.labs[l] {
        assert id in s.labs[l] ==> NetworkOfLab(s, id, l);
      }
    } else {
      forall l | l in s'.labs ensures id !in s.labs[l] {
        assert id in s.labs[l] ==> NetworkOfLab(s, id, l);
      }
    }
  }

  // ---- Which calls leak ----

  ghost predicate KnownNetwork(s: Plugin, networkId: string) {
    networkId in s.networks && s.networks[networkId].labId in s.labs
  }

  /** The call leaves this tag reserved without an endpoint: a creation that got it and failed, one that took
      the id of the endpoint that had it, or a reservation for a link. */
  ghost predicate Leaks(s: Plugin, call: Call, tag: int) {
    match call
    case CreateEndpoint(n, e, _, _, used, vethOk, attachOk) =>
      && KnownNetwork(s, n) && Allocate(s.pools, used).1.Some?
      && if vethOk && attachOk then e in s.endpoints && s.endpoints[e].tag == tag
         else Allocate(s.pools, used).1 == Some(tag)
    case ReserveLinkedTag(used) => AllocateLinked(s.pools, used).1 == Some(tag)
    case _ => false
  }

  lemma CreateLeaksIff(s: Plugin, call: Call, tag: int)
    requires Isolated(s) && !Leaked(s, tag) && call.CreateEndpoint?
    ensures Leaked(Step(s, call), tag) <==> Leaks(s, call, tag)
  {
    AllocateContract(s.pools, call.onBridge);
    var s', e, got := Step(s, call), call.endpointId, Allocate(s.pools, call.onBridge).1;
    if KnownNetwork(s, call.networkId) && got.Some? {
      if call.vethOk && call.attachOk {
        assert s'.endpoints == s.endpoints[e := Endpoint(call.networkId, call.hostVeth, call.contVeth, got.value)];
        assert s'.endpoints[e].tag == got.value;
        if f :| f in s.endpoints && s.endpoints[f].tag == tag {
          assert f != e ==> s'.endpoints[f].tag == tag;
        }
      } else {
        assert s'.endpoints == s.endpoints && Reserved(s'.pools) == Reserved(s.pools) + {got.value};
      }
    }
  }

  lemma DeleteLeaksNothing(s: Plugin, eps: set<string>, s': Plugin, tag: int)
    requires Isolated(s) && !Leaked(s, tag)
    requires s'.endpoints == s.endpoints - eps && Reserved(s'.pools) == Reserved(s.pools) - TagsOf(s, eps)
    ensures !Leaked(s', tag)
  {
    if tag in Reserved(s'.pools) {
      var e :| e in s.endpoints && s.endpoints[e].tag == tag;
      assert e !in eps && s'.endpoints[e].tag == tag;
    }
  }

  lemma RepairLeaksNothing(s: Plugin, call: Call, tag: int)
    requires !Leaked(s, tag) && call.RepairEndpoint?
    ensures !Leaked(Step(s, call), tag)
  {
    RepairEndpointOutcome(s, call.endpointId, call.hostVeth, call.contVeth, call.repaired);
    if tag in Reserved(s.pools) {
      var e :| e in s.endpoints && s.endpoints[e].tag == tag;
      assert Step(s, call).endpoints[e].tag == tag;
    }
  }

  /** A call leaks a tag exactly in these three cases: deletion, repair, lab cleanup, networks and reloading
      leak none. */
  lemma StepLeaksIff(s: Plugin, call: Call, tag: int)
    requires Isolated(s) && !Leaked(s, tag)
    ensures Leaked(Step(s, call), tag) <==> Leaks(s, call, tag)
  {
    match call
    case CreateEndpoint(_, _, _, _, _, _, _) => CreateLeaksIff(s, call, tag);
    case DeleteEndpoint(e) =>
      DeleteEndpointOutcome(s, e);
      if e in s.endpoints {
        assert TagsOf(s, {e}) == {s.endpoints[e].tag};
        DeleteLeaksNothing(s, {e}, Step(s, call), tag);
      }
    case CleanupLab(labId) =>
      RemoveEndpointsKeepsIsolation(s, EndpointsOfLab(s, labId));
      if labId in s.labs { DeleteLeaksNothing(s, EndpointsOfLab(s, labId), Step(s, call), tag); }
    case RepairEndpoint(_, _, _, _) => RepairLeaksNothing(s, call, tag);
    case ReserveLinkedTag(used) => AllocateLinkedContract(s.pools, used);
    case Reload => ReloadFreesLeaks(s);
    case _ =>
  }

  /** Every reserved tag is that of an endpoint. */
  ghost predicate Tight(s: Plugin) { forall tag :: !Leaked(s, tag) }

  ghost predicate AlwaysTight(s: Plugin, calls: seq<Call>)
    decreases |calls|
  {
    Tight(s) && (calls == [] || AlwaysTight(Step(s, calls[0]), calls[1..]))
  }

  ghost predicate NeverLeaks(s: Plugin, calls: seq<Call>)
    decreases |calls|
  {
    calls == [] || ((forall tag :: !Leaks(s, calls[0], tag)) && NeverLeaks(Step(s, calls[0]), calls[1..]))
  }

  lemma StepIsTightIff(s: Plugin, call: Call)
    requires Isolated(s) && Tight(s)
    ensures Tight(Step(s, call)) <==> forall tag :: !Leaks(s, call, tag)
  {
    forall tag ensures Leaked(Step(s, call), tag) <==> Leaks(s, call, tag) { StepLeaksIff(s, call, tag); }
  }

  /** Over a whole run the reserved tags stay those of the endpoints exactly while no call leaks one. */
  lemma {:induction false} RunIsTightIff(s: Plugin, calls: seq<Call>)
    requires Isolated(s) && Tight(s)
    ensures AlwaysTight(s, calls) <==> NeverLeaks(s, calls)
    ensures NeverLeaks(s, calls) ==> var s' := Run(s, calls); Reserved(s'.pools) == TagsOf(s', s'.endpoints.Keys)
    decreases |calls|
  {
    if calls == [] {
      TightIsExact(s);
    } else {
      StepKeepsIsolation(s, calls[0]);
      StepIsTightIff(s, calls[0]);
      if Tight(Step(s, calls[0])) { RunIsTightIff(Step(s, calls[0]), calls[1..]); }
    }
  }

  lemma TightIsExact(s: Plugin)
    requires Isolated(s) && Tight(s)
    ensures Reserved(s.pools) == TagsOf(s, s.endpoints.Keys)
  {
    forall tag | tag in Reserved(s.pools) ensures tag in TagsOf(s, s.endpoints.Keys) {
      assert !Leaked(s, tag);
      var e :| e in s.endpoints && s.endpoints[e].tag == tag;
      assert e in s.endpoints.Keys;
    }
  }
}
