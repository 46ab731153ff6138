/** Overlay convergence: agent/network/overlay_state.py as state transitions.

    `Declare` is declare_state.  It is proved in OverlayTheorems.dfy and implemented step by step
    by the class in OverlayManager.dfy. */
module OverlayState {
  import opened Wrappers
  import opened OverlayWorld

  /** One entry of the API's declaration. */
  datatype Tunnel = Tunnel(linkId: string, labId: string, vni: int, localIp: string, remoteIp: string,
                           expectedVlan: int, portName: string, mtu: int, placeholder: bool)

  /** One entry of `manager._link_tunnels`. */
  datatype LinkTunnel = LinkTunnel(linkId: string, vni: int, localIp: string, remoteIp: string,
                                   localVlan: int, interfaceName: string, labId: string, tenantMtu: int)

  /** `tracking` is the dictionary, `order` its keys in insertion order, `cache` the tunnels in
      the declared-state file (None: no file). */
  datatype Overlay = Overlay(world: World, tracking: map<string, LinkTunnel>, order: seq<string>,
                             cache: Option<seq<Tunnel>>)

  datatype Status = Protected | Converged | Updated | Created | Error

  datatype TunnelResult = TunnelResult(linkId: string, labId: string, status: Status, actualVlan: int)

  /** Outcome of one declare_state call; Skipped when the bridge could not be listed. */
  datatype DeclareResult = Skipped | Declared(results: seq<TunnelResult>, orphansRemoved: set<string>)

  /** Outcomes of everything one call attempts: the three reads, the commands per tunnel and per
      orphan, and writing the cache file (an atomic rename, so a failure keeps the old file). */
  datatype Env = Env(listOk: bool, tagsOk: bool, ifacesOk: bool, tunnel: nat -> Rc, orphan: string -> Rc,
                     cacheOk: bool)

  predicate ReadComplete(env: Env) { env.listOk && env.tagsOk && env.ifacesOk }

  ghost predicate AllCommandsOk(env: Env) {
    && ReadComplete(env) && env.cacheOk
    && (forall i: nat :: AllOk(env.tunnel(i)))
    && (forall p: string :: AllOk(env.orphan(p)))
  }

  // ---- Dictionary with insertion order ----

  ghost predicate WellOrdered(s: Overlay) {
    && (forall k :: k in s.order <==> k in s.tracking)
    && NoRepeats(s.order)
  }

  function Track(s: Overlay, lt: LinkTunnel): Overlay {
    s.(tracking := s.tracking[lt.linkId := lt],
       order := if lt.linkId in s.tracking then s.order else s.order + [lt.linkId])
  }

  /** The first tracked tunnel, in dictionary order, whose interface is `port`. */
  function FirstOwner(tracking: map<string, LinkTunnel>, order: seq<string>, port: string): Option<LinkTunnel> {
    if order == [] then None
    else if order[0] in tracking && tracking[order[0]].interfaceName == port then Some(tracking[order[0]])
    else FirstOwner(tracking, order[1..], port)
  }

  /** `order` without the keys in `gone`. */
  function Without(order: seq<string>, gone: set<string>): seq<string> {
    if order == [] then []
    else if order[0] in gone then Without(order[1..], gone)
    else [order[0]] + Without(order[1..], gone)
  }

  // ---- Reading the bridge ----

  predicate VxlanName(n: string) { "vxlan" <= n }

  /** batch_read_ovs_ports: None only when `list-ports` fails.  When the Port query fails the
      result is empty, when the Interface query fails every port reads as ofport -1. */
  function ReadPorts(w: World, listOk: bool, tagsOk: bool, ifacesOk: bool): Option<map<string, OvsPort>> {
    if !listOk then None
    else if !tagsOk then Some(map[])
    else Some(map n | n in w.ports && VxlanName(n) :: OvsPort(w.ports[n].tag, ifacesOk && w.ports[n].healthy))
  }

  // ---- One declared tunnel ----

  predicate IsProtected(t: Tunnel) {
    t.placeholder || t.localIp == "" || t.remoteIp == "" || t.vni == 0
  }

  /** The tracking entry of a tunnel found on the bridge. */
  function Entry(t: Tunnel, overlayMtu: int): LinkTunnel {
    LinkTunnel(t.linkId, t.vni, t.localIp, t.remoteIp, t.expectedVlan, t.portName, t.labId,
               if t.mtu > 0 then t.mtu else overlayMtu)
  }

  function TagOf(vlan: int): nat { if vlan > 0 then vlan else 0 }

  /** The port was read as present and healthy: fix tag, then MTU, then track it. */
  function DeclareExisting(s: Overlay, current: nat, t: Tunnel, overlayMtu: int, rc: Rc): (Overlay, TunnelResult) {
    var n := t.portName;
    var wrongTag := t.expectedVlan > 0 && current != t.expectedVlan;
    var w1 := if wrongTag then SetTag(s.world, n, t.expectedVlan, rc.setTag) else s.world;
    var wrongMtu := t.mtu > 0 && rc.linkShow && n in w1.devices && w1.devices[n].mtu != t.mtu;
    var w2 := if wrongMtu then SetMtu(w1, n, t.mtu, rc.setMtu) else w1;
    var status := if wrongTag || wrongMtu then Updated else Converged;
    (Track(s.(world := w2), Entry(t, overlayMtu)),
     TunnelResult(t.linkId, t.labId, status, if status == Converged then current else t.expectedVlan))
  }

  /** Clear a leftover device and create the port; the flag is false where creation raises. */
  function MissingWorld(w: World, t: Tunnel, overlayMtu: int, rc: Rc): (World, bool) {
    var n := t.portName;
    var w1 := if rc.linkShow && n in w.devices then LinkDelete(w, n, rc.linkDelete) else w;
    CreateDevice(w1, n, t.vni, t.localIp, t.remoteIp, TagOf(t.expectedVlan),
                 DeviceMtu(t.mtu, overlayMtu), overlayMtu, rc)
  }

  /** The port is missing: create it, and track it if that worked. */
  function DeclareMissing(s: Overlay, w: World, t: Tunnel, overlayMtu: int, rc: Rc): (Overlay, TunnelResult) {
    var (w', ok) := MissingWorld(w, t, overlayMtu, rc);
    if ok then
      (Track(s.(world := w'), Entry(t, overlayMtu).(tenantMtu := DeviceMtu(t.mtu, overlayMtu))),
       TunnelResult(t.linkId, t.labId, Created, t.expectedVlan))
    else (s.(world := w'), TunnelResult(t.linkId, t.labId, Error, 0))
  }

  function DeclareTunnel(s: Overlay, snapshot: map<string, OvsPort>, t: Tunnel, overlayMtu: int, rc: Rc): (Overlay,
                         TunnelResult) {
    var n := t.portName;
    if IsProtected(t) then (s, TunnelResult(t.linkId, t.labId, Protected, 0))
    else if n in snapshot && snapshot[n].healthy then DeclareExisting(s, snapshot[n].tag, t, overlayMtu, rc)
    else
      var w := if n in snapshot then DelPort(s.world, n, rc.delPort) else s.world;
      DeclareMissing(s, w, t, overlayMtu, rc)
  }

  /** The state and the results after the first `k` tunnels. */
  function DeclareTunnels(s: Overlay, snapshot: map<string, OvsPort>, tunnels: seq<Tunnel>, overlayMtu: int,
                          rcs: nat -> Rc, k: nat): (r: (Overlay, seq<TunnelResult>))
    requires k <= |tunnels|
    ensures |r.1| == k
  {
    if k == 0 then (s, [])
    else
      var (s', results) := DeclareTunnels(s, snapshot, tunnels, overlayMtu, rcs, k - 1);
      var (s'', result) := DeclareTunnel(s', snapshot, tunnels[k - 1], overlayMtu, rcs(k - 1));
      (s'', results + [result])
  }

  // ---- Orphan cleanup ----

  function DeclaredNames(tunnels: seq<Tunnel>): set<string> { set t | t in tunnels :: t.portName }

  function DeclaredLabs(tunnels: seq<Tunnel>, labs: set<string>): set<string> {
    labs + set t | t in tunnels :: t.labId
  }

  predicate IsOrphan(s: Overlay, names: set<string>, labs: set<string>, p: string) {
    && p !in names && "vxlan-" <= p
    && var owner := FirstOwner(s.tracking, s.order, p);
       owner.Some? && owner.value.labId in labs
  }

  function Orphans(s: Overlay, snapshot: map<string, OvsPort>, names: set<string>, labs: set<string>): set<string> {
    set p | p in snapshot && IsOrphan(s, names, labs, p)
  }

  /** The links whose tunnel runs over one of `ports`. */
  function LinksOver(s: Overlay, ports: set<string>): set<string> {
    set k | k in s.tracking && s.tracking[k].interfaceName in ports
  }

  /** Delete the devices of all of `ports` and forget the links over them. */
  function RemovePorts(s: Overlay, ports: set<string>, rc: string -> Rc): Overlay {
    var w := s.world;
    var gone := LinksOver(s, ports);
    s.(world := World(
         map p | p in w.ports && !(p in ports && rc(p).delPort) ::
           if p in ports && rc(p).linkDelete && p in w.devices then w.ports[p].(healthy := false) else w.ports[p],
         map d | d in w.devices && !(d in ports && rc(d).linkDelete) :: w.devices[d]),
       tracking := s.tracking - gone,
       order := Without(s.order, gone))
  }

  // ---- declare_state ----

  predicate IsCacheable(t: Tunnel) {
    t.localIp != "" && t.remoteIp != "" && t.vni != 0 && !t.placeholder
  }

  function Cacheable(tunnels: seq<Tunnel>): seq<Tunnel> {
    if tunnels == [] then []
    else (if IsCacheable(tunnels[0]) then [tunnels[0]] else []) + Cacheable(tunnels[1..])
  }

  function Declare(s: Overlay, tunnels: seq<Tunnel>, labs: set<string>, overlayMtu: int, env: Env): (Overlay,
                   DeclareResult) {
    match ReadPorts(s.world, env.listOk, env.tagsOk, env.ifacesOk)
    case None => (s, Skipped)
    case Some(snapshot) =>
      var (s1, results) := DeclareTunnels(s, snapshot, tunnels, overlayMtu, env.tunnel, |tunnels|);
      var orphans := Orphans(s1, snapshot, DeclaredNames(tunnels), DeclaredLabs(tunnels, labs));
      var s2 := RemovePorts(s1, orphans, env.orphan);
      (if env.cacheOk then s2.(cache := Some(Cacheable(tunnels))) else s2, Declared(results, orphans))
  }
}
