/** The OVS network manager as an object: its tables updated in loops, each method proved against the
    transition functions of OvsProvision and OvsDiscovery. */
module OvsNetworkManager {
  import opened Wrappers
  import opened VlanPools
  import opened OvsProvision
  import opened OvsBookkeeping
  import opened OvsDiscovery

  lemma {:induction false} LinksWithoutAppend(links: seq<Link>, l: Link, key: Key)
    ensures LinksWithout(links + [l], key) == LinksWithout(links, key) + if Touches(l, key) then [] else [l]
  {
    if links == [] {
      assert LinksWithout([l], key) == if Touches(l, key) then [] else [l];
    } else {
      assert (links + [l])[1..] == links[1..] + [l];
      LinksWithoutAppend(links[1..], l, key);
      Associative([links[0]], LinksWithout(links[1..], key), if Touches(l, key) then [] else [l]);
    }
  }

  lemma {:induction false} ConnectedAppend(links: seq<Link>, l: Link, key: Key)
    ensures Connected(links + [l], key) == Connected(links, key) + if Touches(l, key) then [(l.a, l.b)] else []
  {
    if links == [] {
      assert Connected([l], key) == if Touches(l, key) then [(l.a, l.b)] else [];
    } else {
      assert (links + [l])[1..] == links[1..] + [l];
      ConnectedAppend(links[1..], l, key);
      Associative(if Touches(links[0], key) then [(links[0].a, links[0].b)] else [], Connected(links[1..], key),
                  if Touches(l, key) then [(l.a, l.b)] else []);
    }
  }

  lemma {:induction false} PortsOfAppend(order: seq<Key>, k: Key, container: string)
    ensures PortsOf(order + [k], container) == PortsOf(order, container) + if k.container == container then [k] else []
  {
    if order == [] {
      assert PortsOf([k], container) == if k.container == container then [k] else [];
    } else {
      assert (order + [k])[1..] == order[1..] + [k];
      PortsOfAppend(order[1..], k, container);
      Associative(if order[0].container == container then [order[0]] else [], PortsOf(order[1..], container),
                  if k.container == container then [k] else []);
    }
  }

  lemma {:induction false} WithProbeAppend(keys: seq<Key>, k: Key, probe: Key -> Probe, p: Probe)
    ensures WithProbe(keys + [k], probe, p) == WithProbe(keys, probe, p) + if probe(k) == p then [k] else []
  {
    if keys == [] {
      assert WithProbe([k], probe, p) == if probe(k) == p then [k] else [];
    } else {
      assert (keys + [k])[1..] == keys[1..] + [k];
      WithProbeAppend(keys[1..], k, probe, p);
      Associative(if probe(keys[0]) == p then [keys[0]] else [], WithProbe(keys[1..], probe, p),
                  if probe(k) == p then [k] else []);
    }
  }

  lemma StaleAppend(order: seq<Key>, k: Key, container: string, probe: Key -> Probe, p: Probe)
    ensures WithProbe(PortsOf(order + [k], container), probe, p)
         == WithProbe(PortsOf(order, container), probe, p)
            + if k.container == container && probe(k) == p then [k] else []
  {
    var keys := PortsOf(order, container);
    PortsOfAppend(order, k, container);
    WithProbeAppend(keys, k, probe, p);
    assert keys + [] == keys && WithProbe(keys, probe, p) + [] == WithProbe(keys, probe, p);
  }

  /** One more round of the restart. */
  lemma OneMoreRound(s: Manager, stale: seq<Key>, labId: string, env: RestartEnv, i: nat, m: Manager, errors: nat)
    requires Iterate(s, StaleRound(s, stale, labId, env), i) == (m, errors)
    ensures var (m', more) := Round(s, stale, labId, env, m, i);
            Iterate(s, StaleRound(s, stale, labId, env), i + 1) == (m', errors + more)
  {
    assert StaleRound(s, stale, labId, env)(m, i) == Round(s, stale, labId, env, m, i);
  }

  ghost predicate GroupedByTag(ports: map<Key, Port>, order: seq<Key>, groups: map<int, seq<Key>>, tagOrder: seq<int>) {
    && tagOrder == TagsInOrder(ports, order)
    && (forall t :: t in groups <==> t in tagOrder)
    && forall t <- tagOrder :: groups[t] == KeysWithTag(ports, order, t)
  }

  lemma {:induction false} NoTagNoKeys(ports: map<Key, Port>, order: seq<Key>, t: int)
    requires t !in TagsInOrder(ports, order)
    ensures KeysWithTag(ports, order, t) == []
  {
    if order != [] { NoTagNoKeys(ports, order[..|order| - 1], t); }
  }

  lemma TagsOneMore(ports: map<Key, Port>, order: seq<Key>, key: Key)
    requires key in ports
    ensures var tags := TagsInOrder(ports, order);
            TagsInOrder(ports, order + [key]) == if ports[key].tag in tags then tags else tags + [ports[key].tag]
  {
    assert (order + [key])[..|order|] == order;
  }

  lemma KeysOneMore(ports: map<Key, Port>, order: seq<Key>, key: Key, t: int)
    requires key in ports
    ensures KeysWithTag(ports, order + [key], t)
         == KeysWithTag(ports, order, t) + if ports[key].tag == t then [key] else []
  {
    assert (order + [key])[..|order|] == order;
  }

  lemma GroupOneMore(ports: map<Key, Port>, order: seq<Key>, key: Key, groups: map<int, seq<Key>>, tagOrder: seq<int>)
    requires GroupedByTag(ports, order, groups, tagOrder) && key in ports
    ensures var t := ports[key].tag;
            var keys := if t in groups then groups[t] else [];
            GroupedByTag(ports, order + [key], groups[t := keys + [key]],
                         if t in groups then tagOrder else tagOrder + [t])
  {
    var t := ports[key].tag;
    var keys := if t in groups then groups[t] else [];
    var groups', tagOrder' := groups[t := keys + [key]], if t in groups then tagOrder else tagOrder + [t];
    TagsOneMore(ports, order, key);
    if t !in groups { NoTagNoKeys(ports, order, t); }
    forall u <- tagOrder' ensures groups'[u] == KeysWithTag(ports, order + [key], u) {
      KeysOneMore(ports, order, key, u);
    }
  }

  /** What the restart notes about the stale ports before it cleans anything up. */
  ghost predicate Noted(s: Manager, stale: seq<Key>, portNames: seq<string>, portLinks: seq<seq<(Key, Key)>>) {
    && |portNames| == |portLinks| == |stale|
    && forall j :: 0 <= j < |stale| ==>
         stale[j] in s.ports && portNames[j] == s.ports[stale[j]].portName
         && portLinks[j] == Connected(s.links, stale[j])
  }

  lemma NoteOneMore(s: Manager, stale: seq<Key>, portNames: seq<string>, portLinks: seq<seq<(Key, Key)>>, key: Key)
    requires Noted(s, stale, portNames, portLinks) && key in s.ports
    ensures Noted(s, stale + [key], portNames + [s.ports[key].portName], portLinks + [Connected(s.links, key)])
  {
  }

  class OvsNetworkManager {
    var ports: map<Key, Port>
    var order: seq<Key>
    var links: seq<Link>
    var tags: map<Key, int>
    var nextVlan: int
    var bridge: map<string, int>

    constructor (bridge: map<string, int>)
      ensures State() == Manager(map[], [], [], Allocator(map[], VLAN_START), bridge)
    {
      ports, order, links, tags, nextVlan := map[], [], [], map[], VLAN_START;
      this.bridge := bridge;
    }

    function State(): Manager
      reads this
    {
      Manager(ports, order, links, Allocator(tags, nextVlan), bridge)
    }

    /** VlanAllocator.allocate: the cursor walks the ring; after a full round it stands where it was. */
    method AllocateVlan(key: Key) returns (vlan: Option<int>)
      requires VLAN_START <= nextVlan <= VLAN_END
      modifies this`tags, this`nextVlan
      ensures (Allocator(tags, nextVlan), vlan) == AllocateTag(old(Allocator(tags, nextVlan)), key)
      ensures VLAN_START <= nextVlan <= VLAN_END
    {
      if key in tags { return Some(tags[key]); }
      var used := tags.Values;
      var attempts := 0;
      while nextVlan in used
        invariant 0 <= attempts <= VLAN_END - VLAN_START && tags == old(tags)
        invariant nextVlan == if old(nextVlan) + attempts <= VLAN_END then old(nextVlan) + attempts
                              else old(nextVlan) + attempts - (VLAN_END - VLAN_START + 1)
        invariant Search(used, VLAN_START, VLAN_END, old(nextVlan), VLAN_END - VLAN_START + 1)
               == Search(used, VLAN_START, VLAN_END, nextVlan, VLAN_END - VLAN_START + 1 - attempts)
        decreases VLAN_END - VLAN_START - attempts
      {
        nextVlan := nextVlan + 1;
        if nextVlan > VLAN_END { nextVlan := VLAN_START; }
        attempts := attempts + 1;
        if attempts > VLAN_END - VLAN_START { return None; }
      }
      var found := nextVlan;
      tags := tags[key := found];
      nextVlan := nextVlan + 1;
      if nextVlan > VLAN_END { nextVlan := VLAN_START; }
      return Some(found);
    }

    method ReleaseVlan(key: Key)
      modifies this`tags
      ensures tags == old(tags) - {key}
    {
      tags := tags - {key};
    }

    method RemoveLinks(key: Key)
      modifies this`links
      ensures links == LinksWithout(old(links), key)
    {
      var kept: seq<Link> := [];
      assert links[..0] == [];
      for i := 0 to |links|
        invariant links == old(links) && kept == LinksWithout(links[..i], key)
      {
        LinksWithoutAppend(links[..i], links[i], key);
        assert links[..i + 1] == links[..i] + [links[i]];
        if !Touches(links[i], key) { kept := kept + [links[i]]; }
      }
      assert links[..|links|] == links;
      links := kept;
    }

    /** provision_interface; None where it raises. */
    method ProvisionInterface(key: Key, labId: string, nodeName: Option<string>, rc: ProvisionRc)
      returns (vlan: Option<int>)
      requires VLAN_START <= nextVlan <= VLAN_END
      modifies this
      ensures (State(), vlan) == Provision(old(State()), key, labId, nodeName, rc)
      ensures VLAN_START <= nextVlan <= VLAN_END
    {
      if key in ports { return Some(ports[key].tag); }
      if !rc.pidOk { return None; }
      vlan := AllocateVlan(key);
      if vlan == None { return None; }
      var added := false;
      if rc.addLink && rc.addPort && rc.portName !in bridge {
        bridge := bridge[rc.portName := vlan.value];
        added := true;
      }
      if !added || !rc.move {
        ReleaseVlan(key);
        bridge := DelPort(bridge, rc.portName, rc.delPort);
        return None;
      }
      ports, order := ports[key := Port(rc.portName, vlan.value, labId, nodeName)], order + [key];
    }

    method DeletePort(key: Key, delPort: bool) returns (deleted: bool)
      modifies this
      ensures (State(), deleted) == Delete(old(State()), key, delPort)
    {
      if key !in ports { return false; }
      bridge := DelPort(bridge, ports[key].portName, delPort);
      ReleaseVlan(key);
      ports, order := ports - {key}, KeepKeys(order, key);
      RemoveLinks(key);
      return true;
    }

    method CleanupStalePort(key: Key, portName: string, delPort: bool)
      modifies this
      ensures State() == CleanupStale(old(State()), key, portName, delPort) && nextVlan == old(nextVlan)
    {
      bridge := DelPort(bridge, portName, delPort);
      ReleaseVlan(key);
      ports, order := ports - {key}, KeepKeys(order, key);
      RemoveLinks(key);
    }

    /** hot_connect; None where it raises. */
    method HotConnectPorts(a: Key, b: Key, labId: string, setOk: bool) returns (vlan: Option<int>)
      modifies this
      ensures (State(), vlan) == HotConnect(old(State()), a, b, labId, setOk) && nextVlan == old(nextVlan)
    {
      if a !in ports || b !in ports { return None; }
      var shared := ports[a].tag;
      var lab := if labId == "" then ports[a].labId else labId;
      if ports[b].tag != shared {
        if !setOk || ports[b].portName !in bridge { return None; }
        bridge := bridge[ports[b].portName := shared];
        ReleaseVlan(b);
        ports := ports[b := ports[b].(tag := shared)];
      }
      links := AddLink(links, Link(lab, a, b, shared));
      return Some(shared);
    }

    // ---- Restart ----

    /** The other ends noted for one stale port. */
    method ConnectedLinks(key: Key) returns (pairs: seq<(Key, Key)>)
      ensures pairs == Connected(links, key)
    {
      pairs := [];
      for i := 0 to |links|
        invariant pairs == Connected(links[..i], key)
      {
        ConnectedAppend(links[..i], links[i], key);
        assert links[..i + 1] == links[..i] + [links[i]];
        if Touches(links[i], key) { pairs := pairs + [(links[i].a, links[i].b)]; }
      }
      assert links[..|links|] == links;
    }

    method ReconnectPairs(pairs: seq<(Key, Key)>, labId: string, ok: nat -> bool) returns (errors: nat)
      modifies this
      ensures (State(), errors) == Reconnect(old(State()), pairs, labId, ok, |pairs|) && nextVlan == old(nextVlan)
    {
      errors := 0;
      for i := 0 to |pairs|
        invariant (State(), errors) == Reconnect(old(State()), pairs, labId, ok, i) && nextVlan == old(nextVlan)
      {
        var vlan := HotConnectPorts(pairs[i].0, pairs[i].1, labId, ok(i));
        if vlan == None { errors := errors + 1; }
      }
    }

    method ReprovisionPort(key: Key, portName: string, pairs: seq<(Key, Key)>, labId: string, i: nat, env: RestartEnv)
      returns (errors: nat)
      requires VLAN_START <= nextVlan <= VLAN_END
      modifies this
      ensures (State(), errors) == Reprovision(old(State()), key, portName, pairs, labId, i, env)
      ensures VLAN_START <= nextVlan <= VLAN_END
    {
      CleanupStalePort(key, portName, env.delPort(i));
      var vlan := ProvisionInterface(key, labId, None, env.provision(i));
      if vlan == None { return 1; }
      errors := ReconnectPairs(pairs, labId, env.connect(i));
    }

    /** First phase: the stale ports of the container, with what has to be restored for each. */
    method CollectStale(container: string, env: RestartEnv)
      returns (stale: seq<Key>, portNames: seq<string>, portLinks: seq<seq<(Key, Key)>>, probeErrors: seq<Key>)
      requires WellOrdered(State())
      ensures stale == StaleKeys(State(), container, env)
      ensures probeErrors == WithProbe(PortsOf(order, container), env.probe, ProbeError)
      ensures Noted(State(), stale, portNames, portLinks)
    {
      stale, portNames, portLinks, probeErrors := [], [], [], [];
      for i := 0 to |order|
        invariant stale == WithProbe(PortsOf(order[..i], container), env.probe, Stale)
        invariant probeErrors == WithProbe(PortsOf(order[..i], container), env.probe, ProbeError)
        invariant Noted(State(), stale, portNames, portLinks)
      {
        var key := order[i];
        assert key in order && key in ports;
        assert order[..i + 1] == order[..i] + [key];
        StaleAppend(order[..i], key, container, env.probe, Stale);
        StaleAppend(order[..i], key, container, env.probe, ProbeError);
        if key.container == container {
          if env.probe(key) == Stale {
            var pairs := ConnectedLinks(key);
            NoteOneMore(State(), stale, portNames, portLinks, key);
            stale, portNames, portLinks := stale + [key], portNames + [ports[key].portName], portLinks + [pairs];
          } else if env.probe(key) == ProbeError {
            probeErrors := probeErrors + [key];
          }
        }
      }
      assert order[..|order|] == order;
    }

    method HandleContainerRestart(container: string, labId: string, env: RestartEnv) returns (errors: nat)
      requires Book(State())
      modifies this
      ensures (State(), errors) == Restart(old(State()), container, labId, env)
    {
      ghost var s := State();
      var stale, portNames, portLinks, probeErrors := CollectStale(container, env);
      var more := ReprovisionStale(s, stale, portNames, portLinks, labId, env);
      errors := more + |probeErrors|;
    }

    method ReprovisionNth(ghost s: Manager, stale: seq<Key>, i: nat, portName: string, pairs: seq<(Key, Key)>,
                          labId: string, env: RestartEnv) returns (errors: nat)
      requires i < |stale| && stale[i] in s.ports && VLAN_START <= nextVlan <= VLAN_END
      requires portName == s.ports[stale[i]].portName && pairs == Connected(s.links, stale[i])
      modifies this
      ensures (State(), errors) == Round(s, stale, labId, env, old(State()), i)
      ensures VLAN_START <= nextVlan <= VLAN_END
    {
      errors := ReprovisionPort(stale[i], portName, pairs, labId, i, env);
    }

    method RestartNext(ghost s: Manager, stale: seq<Key>, i: nat, portName: string, pairs: seq<(Key, Key)>,
                       labId: string, env: RestartEnv, before: nat) returns (errors: nat)
      requires i < |stale| && stale[i] in s.ports && VLAN_START <= nextVlan <= VLAN_END
      requires portName == s.ports[stale[i]].portName && pairs == Connected(s.links, stale[i])
      requires (State(), before) == Iterate(s, StaleRound(s, stale, labId, env), i)
      modifies this
      ensures (State(), errors) == Iterate(s, StaleRound(s, stale, labId, env), i + 1)
      ensures VLAN_START <= nextVlan <= VLAN_END
    {
      OneMoreRound(s, stale, labId, env, i, State(), before);
      errors := ReprovisionNth(s, stale, i, portName, pairs, labId, env);
      errors := before + errors;
    }

    method ReprovisionStale(ghost s: Manager, stale: seq<Key>, portNames: seq<string>, portLinks: seq<seq<(Key, Key)>>,
                            labId: string, env: RestartEnv) returns (errors: nat)
      requires Book(State()) && s == State() && Noted(s, stale, portNames, portLinks)
      modifies this
      ensures (State(), errors) == Iterate(s, StaleRound(s, stale, labId, env), |stale|)
    {
      errors := 0;
      for i := 0 to |stale|
        invariant (State(), errors) == Iterate(s, StaleRound(s, stale, labId, env), i)
        invariant VLAN_START <= nextVlan <= VLAN_END
      {
        errors := RestartNext(s, stale, i, portNames[i], portLinks[i], labId, env, errors);
      }
    }

    // ---- Discovery ----

    method DiscoverOne(r: Reading, name: string)
      modifies this
      ensures State() == DiscoverPort(old(State()), r, name)
    {
      if name !in r.tags { return; }
      if name !in r.ifindex || r.ifindex[name] == "" { return; }
      if r.ifindex[name] in r.owners {
        var o := r.owners[r.ifindex[name]];
        if o.key !in ports { order := order + [o.key]; }
        ports := ports[o.key := Port(name, r.tags[name], o.labId, o.nodeName)];
        tags := tags[o.key := r.tags[name]];
      }
    }

    /** Group the tracked ports by tag. */
    static method GroupByTag(ports: map<Key, Port>, order: seq<Key>)
      returns (groups: map<int, seq<Key>>, tagOrder: seq<int>)
      requires forall k :: k in order ==> k in ports
      ensures GroupedByTag(ports, order, groups, tagOrder)
    {
      groups, tagOrder := map[], [];
      for i := 0 to |order|
        invariant GroupedByTag(ports, order[..i], groups, tagOrder)
      {
        var key := order[i];
        assert key in order && order[..i + 1] == order[..i] + [key];
        GroupOneMore(ports, order[..i], key, groups, tagOrder);
        var tag := ports[key].tag;
        if tag !in groups {
          groups, tagOrder := groups[tag := []], tagOrder + [tag];
        }
        groups := groups[tag := groups[tag] + [key]];
      }
      assert order[..|order|] == order;
    }

    method DiscoverExistingState(r: Reading)
      requires WellOrdered(State())
      modifies this
      ensures State() == Discover(old(State()), r)
    {
      if r.names == None { return; }
      var names := VethNames(r.names.value);
      if names == [] { return; }
      ghost var s := State();
      for i := 0 to |names|
        invariant State() == DiscoverPorts(s, r, names, i) && WellOrdered(State())
      {
        DiscoverKeepsOrder(State(), r, names[i]);
        DiscoverOne(r, names[i]);
      }
      LinkPairs();
    }

    method LinkPairs()
      requires WellOrdered(State())
      modifies this`links
      ensures State() == DiscoverLinks(old(State()), TagsInOrder(ports, order), |TagsInOrder(ports, order)|)
    {
      var groups, tagOrder := GroupByTag(ports, order);
      ghost var s := State();
      for i := 0 to |tagOrder|
        invariant State() == DiscoverLinks(s, tagOrder, i)
      {
        var tag := tagOrder[i];
        assert tag in tagOrder;
        var keys := groups[tag];
        if |keys| == 2 && keys[0] in ports {
          links := AddLink(links, Link(ports[keys[0]].labId, keys[0], keys[1], tag));
        }
      }
    }
  }

  lemma DiscoverKeepsOrder(s: Manager, r: Reading, name: string)
    requires WellOrdered(s)
    ensures WellOrdered(DiscoverPort(s, r, name))
  {
  }
}
