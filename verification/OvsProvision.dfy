/** Ports, links and VLAN reservations of the OVS network manager as state transitions
    (agent/network/ovs_provision.py, with hot_connect and the allocator of agent/network/ovs.py). */
module OvsProvision {
  import opened Wrappers
  import opened VlanPools

  const VLAN_START := 100
  const VLAN_END := 4000

  /** "container:interface". */
  datatype Key = Key(container: string, iface: string)

  datatype Port = Port(portName: string, tag: int, labId: string, nodeName: Option<string>)

  /** A link record; its dictionary key is the lab together with the two port keys. */
  datatype Link = Link(labId: string, a: Key, b: Key, tag: int)

  datatype Allocator = Allocator(tags: map<Key, int>, next: int)

  /** `order` holds the keys of `ports` in insertion order, `links` the link records likewise.
      `bridge` is what OVS has: the tag of every port by port name. */
  datatype Manager = Manager(ports: map<Key, Port>, order: seq<Key>, links: seq<Link>, vlans: Allocator,
                             bridge: map<string, int>)

  // ---- Allocator ----

  /** allocate: the existing reservation, or the next tag no reservation has; None where it raises. */
  function AllocateTag(v: Allocator, key: Key): (Allocator, Option<int>) {
    if key in v.tags then (v, Some(v.tags[key]))
    else
      var found := Search(v.tags.Values, VLAN_START, VLAN_END, v.next, VLAN_END - VLAN_START + 1);
      if found == None then (v, None)
      else (Allocator(v.tags[key := found.value], Next(VLAN_START, VLAN_END, found.value)), found)
  }

  function ReleaseTag(v: Allocator, key: Key): Allocator { v.(tags := v.tags - {key}) }

  // ---- Tracking ----

  function KeepKeys(order: seq<Key>, key: Key): seq<Key> {
    if order == [] then []
    else if order[0] == key then KeepKeys(order[1..], key)
    else [order[0]] + KeepKeys(order[1..], key)
  }

  function TrackPort(s: Manager, key: Key, port: Port): Manager {
    s.(ports := s.ports[key := port], order := if key in s.ports then s.order else s.order + [key])
  }

  predicate Touches(l: Link, key: Key) { l.a == key || l.b == key }

  function LinksWithout(links: seq<Link>, key: Key): seq<Link> {
    if links == [] then []
    else if Touches(links[0], key) then LinksWithout(links[1..], key)
    else [links[0]] + LinksWithout(links[1..], key)
  }

  /** Forget the port and every link on it, and release its tag. */
  function Forget(s: Manager, key: Key): Manager {
    s.(ports := s.ports - {key}, order := KeepKeys(s.order, key), links := LinksWithout(s.links, key),
       vlans := ReleaseTag(s.vlans, key))
  }

  function DelPort(bridge: map<string, int>, name: string, ok: bool): map<string, int> {
    if ok then bridge - {name} else bridge
  }

  // ---- Provision, delete, stale cleanup ----

  /** Outcomes of one provisioning: the container's PID, the generated port name, and the commands. */
  datatype ProvisionRc = ProvisionRc(pidOk: bool, portName: string, addLink: bool, addPort: bool, move: bool,
                                     delPort: bool)

  /** provision_interface; None where it raises. */
  function Provision(s: Manager, key: Key, labId: string, nodeName: Option<string>, rc: ProvisionRc): (Manager,
                     Option<int>) {
    if key in s.ports then (s, Some(s.ports[key].tag))
    else if !rc.pidOk then (s, None)
    else
      var (vlans, tag) := AllocateTag(s.vlans, key);
      if tag == None then (s, None)
      else if !rc.addLink || !rc.addPort || rc.portName in s.bridge then
        (s.(vlans := ReleaseTag(vlans, key), bridge := DelPort(s.bridge, rc.portName, rc.delPort)), None)
      else if !rc.move then
        (s.(vlans := ReleaseTag(vlans, key),
            bridge := DelPort(s.bridge[rc.portName := tag.value], rc.portName, rc.delPort)), None)
      else
        (TrackPort(s.(vlans := vlans, bridge := s.bridge[rc.portName := tag.value]), key,
                   Port(rc.portName, tag.value, labId, nodeName)), tag)
  }

  /** delete_port. */
  function Delete(s: Manager, key: Key, delPort: bool): (Manager, bool) {
    if key !in s.ports then (s, false)
    else (Forget(s.(bridge := DelPort(s.bridge, s.ports[key].portName, delPort)), key), true)
  }

  /** cleanup_stale_port, given the port record that was found stale. */
  function CleanupStale(s: Manager, key: Key, portName: string, delPort: bool): Manager {
    Forget(s.(bridge := DelPort(s.bridge, portName, delPort)), key)
  }

  // ---- Links ----

  predicate SameLink(l: Link, m: Link) { l.labId == m.labId && l.a == m.a && l.b == m.b }

  function AddLink(links: seq<Link>, l: Link): seq<Link> {
    if links == [] then [l]
    else if SameLink(links[0], l) then [l] + links[1..]
    else [links[0]] + AddLink(links[1..], l)
  }

  /** hot_connect: `b` takes over the tag of `a` and gives up its own reservation; None where it
      raises. */
  function HotConnect(s: Manager, a: Key, b: Key, labId: string, setOk: bool): (Manager, Option<int>) {
    if a !in s.ports || b !in s.ports then (s, None)
    else
      var shared := s.ports[a].tag;
      var link := Link(if labId == "" then s.ports[a].labId else labId, a, b, shared);
      if s.ports[b].tag == shared then (s.(links := AddLink(s.links, link)), Some(shared))
      else if !setOk || s.ports[b].portName !in s.bridge then (s, None)
      else
        (s.(ports := s.ports[b := s.ports[b].(tag := shared)], vlans := ReleaseTag(s.vlans, b),
            bridge := s.bridge[s.ports[b].portName := shared], links := AddLink(s.links, link)), Some(shared))
  }

  // ---- Container restart ----

  datatype Probe = Stale | Healthy | ProbeError

  /** Outcomes during one restart: the staleness probe per port, and per stale port its cleanup, its
      provisioning and its reconnections. */
  datatype RestartEnv = RestartEnv(probe: Key -> Probe, delPort: nat -> bool, provision: nat -> ProvisionRc,
                                   connect: nat -> nat -> bool)

  function PortsOf(order: seq<Key>, container: string): seq<Key> {
    if order == [] then []
    else (if order[0].container == container then [order[0]] else []) + PortsOf(order[1..], container)
  }

  function WithProbe(keys: seq<Key>, probe: Key -> Probe, p: Probe): seq<Key> {
    if keys == [] then []
    else (if probe(keys[0]) == p then [keys[0]] else []) + WithProbe(keys[1..], probe, p)
  }

  /** The endpoints of the links on `key`, in link order. */
  function Connected(links: seq<Link>, key: Key): seq<(Key, Key)> {
    if links == [] then []
    else (if Touches(links[0], key) then [(links[0].a, links[0].b)] else []) + Connected(links[1..], key)
  }

  /** Reconnect the first `k` pairs; the number counts the failures. */
  function Reconnect(s: Manager, pairs: seq<(Key, Key)>, labId: string, ok: nat -> bool, k: nat): (Manager, nat)
    requires k <= |pairs|
  {
    if k == 0 then (s, 0)
    else
      var (s1, errors) := Reconnect(s, pairs, labId, ok, k - 1);
      var (s2, tag) := HotConnect(s1, pairs[k - 1].0, pairs[k - 1].1, labId, ok(k - 1));
      (s2, if tag == None then errors + 1 else errors)
  }

  /** Clean up one stale port, build it anew, and restore its links. */
  function Reprovision(s: Manager, key: Key, portName: string, pairs: seq<(Key, Key)>, labId: string, i: nat,
                       env: RestartEnv): (Manager, nat) {
    var s1 := CleanupStale(s, key, portName, env.delPort(i));
    var (s2, tag) := Provision(s1, key, labId, None, env.provision(i));
    if tag == None then (s2, 1) else Reconnect(s2, pairs, labId, env.connect(i), |pairs|)
  }

  /** A fold that adds up errors: the state and their number after the first `k` rounds of `round`. */
  function Iterate(s: Manager, round: (Manager, nat) -> (Manager, nat), k: nat): (Manager, nat) {
    if k == 0 then (s, 0)
    else
      var (s1, errors) := Iterate(s, round, k - 1);
      var (s2, more) := round(s1, k - 1);
      (s2, errors + more)
  }

  /** Round `i` handles the `i`-th stale port; links and port names are those noted in `s`, before
      anything was cleaned up. */
  function Round(s: Manager, stale: seq<Key>, labId: string, env: RestartEnv, m: Manager, i: nat): (Manager, nat) {
    if i < |stale| && stale[i] in s.ports
    then Reprovision(m, stale[i], s.ports[stale[i]].portName, Connected(s.links, stale[i]), labId, i, env)
    else (m, 0)
  }

  function StaleRound(s: Manager, stale: seq<Key>, labId: string, env: RestartEnv): (Manager, nat) -> (Manager, nat) {
    (m: Manager, i: nat) => Round(s, stale, labId, env, m, i)
  }

  function StaleKeys(s: Manager, container: string, env: RestartEnv): seq<Key> {
    WithProbe(PortsOf(s.order, container), env.probe, Stale)
  }

  lemma {:induction false} StaleAreKeys(order: seq<Key>, container: string, probe: Key -> Probe, p: Probe)
    ensures forall k :: k in WithProbe(PortsOf(order, container), probe, p)
                   <==> k in order && k.container == container && probe(k) == p
  {
    PortsOfMembers(order, container);
    WithProbeMembers(PortsOf(order, container), probe, p);
  }

  lemma {:induction false} PortsOfMembers(order: seq<Key>, container: string)
    ensures forall k :: k in PortsOf(order, container) <==> k in order && k.container == container
  {
    if order != [] { PortsOfMembers(order[1..], container); }
  }

  lemma {:induction false} WithProbeMembers(keys: seq<Key>, probe: Key -> Probe, p: Probe)
    ensures forall k :: k in WithProbe(keys, probe, p) <==> k in keys && probe(k) == p
  {
    if keys != [] { WithProbeMembers(keys[1..], probe, p); }
  }

  ghost predicate WellOrdered(s: Manager) {
    && (forall k :: k in s.order <==> k in s.ports)
    && NoRepeats(s.order)
  }

  /** handle_container_restart, with the number of errors it reports. */
  function Restart(s: Manager, container: string, labId: string, env: RestartEnv): (Manager, nat) {
    var stale := StaleKeys(s, container, env);
    var (s', errors) := Iterate(s, StaleRound(s, stale, labId, env), |stale|);
    (s', errors + |WithProbe(PortsOf(s.order, container), env.probe, ProbeError)|)
  }
}
