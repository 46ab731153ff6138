/** The overlay manager as the object it is in the program: fields updated step by step, each
    method proved against the transition functions of OverlayState, OverlayHealth and
    OverlayRecovery. */
module OverlayManager {
  import opened Wrappers
  import opened OverlayWorld
  import opened OverlayState
  import opened OverlayTheorems
  import opened OverlaySafety
  import opened OverlayHealth
  import opened OverlayRecovery

  // ---- Removing ports one at a time ----

  lemma {:induction false} WithoutTwice(order: seq<string>, g: set<string>, h: set<string>)
    ensures Without(Without(order, g), h) == Without(order, g + h)
  {
    if order != [] {
      WithoutTwice(order[1..], g, h);
      if order[0] !in g {
        assert ([order[0]] + Without(order[1..], g))[1..] == Without(order[1..], g);
      }
    }
  }

  lemma RemoveWorldOneMore(s: Overlay, ports: set<string>, p: string, rc: string -> Rc)
    requires p !in ports
    ensures RemovePorts(s, ports + {p}, rc).world == DeleteDevice(RemovePorts(s, ports, rc).world, p, rc(p))
  {
    var w, w' := DeleteDevice(RemovePorts(s, ports, rc).world, p, rc(p)), RemovePorts(s, ports + {p}, rc).world;
    assert w.ports == w'.ports;
    assert w.devices == w'.devices;
  }

  lemma LinksOneMore(s: Overlay, ports: set<string>, p: string)
    ensures var kept := s.tracking - LinksOver(s, ports);
            LinksOver(s, ports + {p}) == LinksOver(s, ports) + set k | k in kept && kept[k].interfaceName == p
  {
  }

  /** Removing `ports` and then `p` is removing them together. */
  lemma RemoveOneMore(s: Overlay, ports: set<string>, p: string, rc: string -> Rc)
    requires p !in ports
    ensures var s1 := RemovePorts(s, ports, rc);
            var gone := set k | k in s1.tracking && s1.tracking[k].interfaceName == p;
            RemovePorts(s, ports + {p}, rc)
            == s1.(world := DeleteDevice(s1.world, p, rc(p)), tracking := s1.tracking - gone,
                 order := Without(s1.order, gone))
  {
    var s1 := RemovePorts(s, ports, rc);
    var gone := set k | k in s1.tracking && s1.tracking[k].interfaceName == p;
    RemoveWorldOneMore(s, ports, p, rc);
    LinksOneMore(s, ports, p);
    WithoutTwice(s.order, LinksOver(s, ports), gone);
    assert s1.tracking - gone == s.tracking - (LinksOver(s, ports) + gone);
  }

  /** Ownership of a port that is not removed is unaffected, so orphans can be judged on the fly. */
  lemma JudgedOnTheFly(s: Overlay, ports: set<string>, p: string, names: set<string>, labs: set<string>,
                       rc: string -> Rc)
    requires p !in ports
    ensures IsOrphan(RemovePorts(s, ports, rc), names, labs, p) <==> IsOrphan(s, names, labs, p)
  {
    OwnerKept(s.tracking, s.order, LinksOver(s, ports), p);
  }

  class OverlayManager {
    var world: World
    var linkTunnels: map<string, LinkTunnel>
    var order: seq<string>
    var cache: Option<seq<Tunnel>>
    const overlayMtu: int

    constructor (world: World, cache: Option<seq<Tunnel>>, overlayMtu: int)
      ensures State() == Overlay(world, map[], [], cache) && this.overlayMtu == overlayMtu
    {
      this.world, this.linkTunnels, this.order, this.cache := world, map[], [], cache;
      this.overlayMtu := overlayMtu;
    }

    function State(): Overlay
      reads this
    {
      Overlay(world, linkTunnels, order, cache)
    }

    method CreateVxlanDevice(n: string, vni: int, localIp: string, remoteIp: string, tag: nat, tenantMtu: int, rc: Rc)
      returns (ok: bool)
      modifies this`world
      ensures (world, ok) == CreateDevice(old(world), n, vni, localIp, remoteIp, tag, tenantMtu, overlayMtu, rc)
    {
      if n in world.devices {
        world := LinkDelete(world, n, rc.retryDelete);
      }
      if n in world.devices || !rc.linkAdd {
        return false;
      }
      world := world.(devices := world.devices[n := Device(vni, localIp, remoteIp, rc.kernelMtu)]);
      world := SetMtu(world, n, DeviceMtu(tenantMtu, overlayMtu), rc.setMtu);
      if n in world.ports || !rc.addPort {
        world := LinkDelete(world, n, rc.rollback);
        return false;
      }
      world := world.(ports := world.ports[n := OvsPort(tag, true)]);
      return true;
    }

    method DeleteVxlanDevice(n: string, rc: Rc)
      modifies this`world
      ensures world == DeleteDevice(old(world), n, rc)
    {
      world := DelPort(world, n, rc.delPort);
      world := LinkDelete(world, n, rc.linkDelete);
    }

    method TrackLink(lt: LinkTunnel)
      modifies this`linkTunnels, this`order
      ensures State() == Track(old(State()), lt)
    {
      if lt.linkId !in linkTunnels { order := order + [lt.linkId]; }
      linkTunnels := linkTunnels[lt.linkId := lt];
    }

    method UpdateExisting(current: nat, t: Tunnel, rc: Rc) returns (r: TunnelResult)
      modifies this
      ensures (State(), r) == DeclareExisting(old(State()), current, t, overlayMtu, rc)
    {
      var n := t.portName;
      var status := Converged;
      if t.expectedVlan > 0 && current != t.expectedVlan {
        world := SetTag(world, n, t.expectedVlan, rc.setTag);
        status := Updated;
      }
      if t.mtu > 0 {
        if rc.linkShow && n in world.devices {
          if world.devices[n].mtu != t.mtu {
            world := SetMtu(world, n, t.mtu, rc.setMtu);
            status := Updated;
          }
        }
      }
      TrackLink(Entry(t, overlayMtu));
      r := TunnelResult(t.linkId, t.labId, status, if status == Converged then current else t.expectedVlan);
    }

    method CreateMissing(t: Tunnel, rc: Rc) returns (r: TunnelResult)
      modifies this
      ensures (State(), r) == DeclareMissing(old(State()), old(world), t, overlayMtu, rc)
    {
      var tenantMtu := DeviceMtu(t.mtu, overlayMtu);
      if rc.linkShow && t.portName in world.devices {
        world := LinkDelete(world, t.portName, rc.linkDelete);
      }
      var ok := CreateVxlanDevice(t.portName, t.vni, t.localIp, t.remoteIp, TagOf(t.expectedVlan), tenantMtu, rc);
      if ok {
        TrackLink(Entry(t, overlayMtu).(tenantMtu := tenantMtu));
        r := TunnelResult(t.linkId, t.labId, Created, t.expectedVlan);
      } else {
        r := TunnelResult(t.linkId, t.labId, Error, 0);
      }
    }

    method ConvergeTunnel(snapshot: map<string, OvsPort>, t: Tunnel, rc: Rc) returns (r: TunnelResult)
      modifies this
      ensures (State(), r) == DeclareTunnel(old(State()), snapshot, t, overlayMtu, rc)
    {
      if IsProtected(t) {
        return TunnelResult(t.linkId, t.labId, Protected, 0);
      }
      var n := t.portName;
      if n in snapshot && snapshot[n].healthy {
        r := UpdateExisting(snapshot[n].tag, t, rc);
      } else {
        if n in snapshot { world := DelPort(world, n, rc.delPort); }
        r := CreateMissing(t, rc);
      }
    }

    /** The first tracked tunnel over `port`. */
    method OwnerOf(port: string) returns (owner: Option<LinkTunnel>)
      ensures owner == FirstOwner(linkTunnels, order, port)
    {
      var i := 0;
      while i < |order|
        invariant i <= |order| && FirstOwner(linkTunnels, order, port) == FirstOwner(linkTunnels, order[i..], port)
      {
        if order[i] in linkTunnels && linkTunnels[order[i]].interfaceName == port {
          return Some(linkTunnels[order[i]]);
        }
        assert order[i..][1..] == order[i + 1..];
        i := i + 1;
      }
      return None;
    }

    method RemoveOrphans(snapshot: map<string, OvsPort>, names: set<string>, labs: set<string>, rc: string -> Rc)
      returns (removed: set<string>)
      modifies this
      ensures removed == Orphans(old(State()), snapshot, names, labs)
      ensures State() == RemovePorts(old(State()), removed, rc)
    {
      ghost var s := State();
      removed := {};
      RemoveNothing(s, rc);
      var todo := snapshot.Keys;
      while todo != {}
        invariant todo <= snapshot.Keys
        invariant removed == set p | p in snapshot && p !in todo && IsOrphan(s, names, labs, p)
        invariant State() == RemovePorts(s, removed, rc)
        decreases todo
      {
        var p :| p in todo;
        todo := todo - {p};
        JudgedOnTheFly(s, removed, p, names, labs, rc);
        var owner := OwnerOf(p);
        if p !in names && "vxlan-" <= p && owner.Some? && owner.value.labId in labs {
          RemoveOneMore(s, removed, p, rc);
          DeleteVxlanDevice(p, rc(p));
          removed := removed + {p};
          var gone := set k | k in linkTunnels && linkTunnels[k].interfaceName == p;
          linkTunnels, order := linkTunnels - gone, Without(order, gone);
        }
      }
    }

    /** The loop over the tunnels, which also notes the declared port names and labs. */
    method ConvergeTunnels(snapshot: map<string, OvsPort>, tunnels: seq<Tunnel>, declaredLabs: set<string>,
                           rcs: nat -> Rc)
      returns (results: seq<TunnelResult>, names: set<string>, labs: set<string>)
      modifies this
      ensures (State(), results) == DeclareTunnels(old(State()), snapshot, tunnels, overlayMtu, rcs, |tunnels|)
      ensures names == DeclaredNames(tunnels) && labs == DeclaredLabs(tunnels, declaredLabs)
    {
      ghost var s := State();
      results, names, labs := [], {}, declaredLabs;
      for i := 0 to |tunnels|
        invariant (State(), results) == DeclareTunnels(s, snapshot, tunnels, overlayMtu, rcs, i)
        invariant names == DeclaredNames(tunnels[..i]) && labs == DeclaredLabs(tunnels[..i], declaredLabs)
      {
        var t := tunnels[i];
        labs, names := labs + {t.labId}, names + {t.portName};
        var result := ConvergeTunnel(snapshot, t, rcs(i));
        results := results + [result];
        assert tunnels[..i + 1] == tunnels[..i] + [t];
      }
      assert tunnels[..|tunnels|] == tunnels;
    }

    method DeclareState(tunnels: seq<Tunnel>, declaredLabs: set<string>, env: Env) returns (r: DeclareResult)
      modifies this
      ensures (State(), r) == Declare(old(State()), tunnels, declaredLabs, overlayMtu, env)
    {
      var read := ReadPorts(world, env.listOk, env.tagsOk, env.ifacesOk);
      if read == None { return Skipped; }
      var results, names, labs := ConvergeTunnels(read.value, tunnels, declaredLabs, env.tunnel);
      var removed := RemoveOrphans(read.value, names, labs, env.orphan);
      if env.cacheOk { cache := Some(Cacheable(tunnels)); }
      r := Declared(results, removed);
    }

    method RepairTunnel(snapshot: map<string, OvsPort>, link: string, rc: Rc) returns (ok: bool)
      requires link in linkTunnels
      modifies this`world
      ensures (State(), ok) == RepairLink(old(State()), snapshot, link, overlayMtu, rc)
    {
      var lt := linkTunnels[link];
      var n := lt.interfaceName;
      if n in snapshot && snapshot[n].healthy { return false; }
      if n in snapshot { world := DelPort(world, n, rc.delPort); }
      ok := CreateVxlanDevice(n, lt.vni, lt.localIp, lt.remoteIp, TagOf(lt.localVlan), lt.tenantMtu, rc);
    }

    /** One pass of the health monitor. */
    method CheckAndRepair(env: Env) returns (r: HealthResult)
      requires WellOrdered(State())
      modifies this`world
      ensures (State(), r) == OverlayHealth.CheckAndRepair(old(State()), overlayMtu, env)
    {
      if |linkTunnels| == 0 { return Checked(0, 0); }
      var read := ReadPorts(world, env.listOk, env.tagsOk, env.ifacesOk);
      if read == None { return SkippedCheck; }
      var snapshot := read.value;
      var checked, repaired := RepairTunnels(snapshot, env.tunnel);
      r := Checked(checked, repaired);
    }

    method RepairNext(ghost s: Overlay, snapshot: map<string, OvsPort>, rcs: nat -> Rc, checked: nat, repaired: nat)
      returns (repaired': nat)
      requires WellOrdered(s) && checked < |order| && linkTunnels == s.tracking && order == s.order
      requires (State(), repaired) == RepairLinks(s, snapshot, overlayMtu, rcs, checked)
      modifies this`world
      ensures (State(), repaired') == RepairLinks(s, snapshot, overlayMtu, rcs, checked + 1)
    {
      var ok := RepairTunnel(snapshot, order[checked], rcs(checked));
      repaired' := if ok then repaired + 1 else repaired;
    }

    method RepairTunnels(snapshot: map<string, OvsPort>, rcs: nat -> Rc) returns (checked: nat, repaired: nat)
      requires WellOrdered(State())
      modifies this`world
      ensures checked == |order| && (State(), repaired) == RepairLinks(old(State()), snapshot, overlayMtu, rcs, |order|)
    {
      ghost var s := State();
      checked, repaired := 0, 0;
      while checked < |order|
        invariant checked <= |order| && linkTunnels == s.tracking && order == s.order
        invariant (State(), repaired) == RepairLinks(s, snapshot, overlayMtu, rcs, checked)
      {
        repaired := RepairNext(s, snapshot, rcs, checked, repaired);
        checked := checked + 1;
      }
    }

    /** The link id known for each tracked interface: the last one that is not just the interface name. */
    method KnownLinks() returns (known: map<string, string>)
      ensures Knows(known, linkTunnels, order)
    {
      known := map[];
      for i := 0 to |order|
        invariant Knows(known, linkTunnels, order[..i])
      {
        KnowsOneMore(known, linkTunnels, order[..i], order[i]);
        assert order[..i + 1] == order[..i] + [order[i]];
        if order[i] in linkTunnels {
          var lt := linkTunnels[order[i]];
          if lt.linkId != "" && lt.linkId != lt.interfaceName { known := known[lt.interfaceName := lt.linkId]; }
        }
      }
      assert order[..|order|] == order;
    }

    /** One listed port of the fallback scan. */
    method ScanPort(port: string, known: map<string, string>, scan: ScanEnv, ghost s: Overlay, ghost done: set<string>)
      returns (refreshed: bool)
      requires Identified(s) && s == State().(tracking := s.tracking) && Knows(known, s.tracking, s.order)
      requires port in s.world.ports && "vxlan-" <= port && port !in done
      requires linkTunnels == ScannedUpTo(s, overlayMtu, scan, done)
      modifies this`linkTunnels
      ensures linkTunnels == ScannedUpTo(s, overlayMtu, scan, done + {port})
      ensures FoundIn(s, overlayMtu, scan, done + {port})
           == FoundIn(s, overlayMtu, scan, done) + if refreshed then {port} else {}
    {
      ScanOneMore(s, overlayMtu, scan, done, port);
      FoundOneMore(s, overlayMtu, scan, done, port);
      if !scan.showOk(port) || port !in world.devices { return false; }
      var d := world.devices[port];
      if d.vni == 0 || d.remoteIp == "" { return false; }
      if port !in known { return false; }
      var link := known[port];
      var localVlan := if scan.tagOk(port) then world.ports[port].tag else 0;
      var lab := if link in linkTunnels then linkTunnels[link].labId else "recovered";
      linkTunnels := linkTunnels[link := LinkTunnel(link, d.vni, d.localIp, d.remoteIp, localVlan,
                                                     port, lab, overlayMtu)];
      return true;
    }

    /** The ports `done` have been scanned from `s` on. */
    ghost predicate Scanned(s: Overlay, scan: ScanEnv, done: set<string>, recovered: nat)
      reads this
    {
      && s == State().(tracking := s.tracking) && linkTunnels == ScannedUpTo(s, overlayMtu, scan, done)
      && recovered == |FoundIn(s, overlayMtu, scan, done)|
    }

    method ScanNext(port: string, known: map<string, string>, scan: ScanEnv, ghost s: Overlay, ghost done: set<string>,
                    recovered: nat)
      returns (recovered': nat)
      requires Identified(s) && Knows(known, s.tracking, s.order) && Scanned(s, scan, done, recovered)
      requires port in s.world.ports && "vxlan-" <= port && port !in done
      modifies this`linkTunnels
      ensures Scanned(s, scan, done + {port}, recovered')
    {
      ghost var found := FoundIn(s, overlayMtu, scan, done);
      var refreshed := ScanPort(port, known, scan, s, done);
      assert port !in found;
      assert found + {} == found;
      recovered' := if refreshed then recovered + 1 else recovered;
    }

    /** The fallback scan over the listed ports. */
    method ScanPorts(scan: ScanEnv) returns (recovered: nat)
      requires Identified(State())
      modifies this`linkTunnels
      ensures (State(), recovered) == Scan(old(State()), overlayMtu, scan)
    {
      ghost var s := State();
      var known := KnownLinks();
      if !scan.listOk { return 0; }
      recovered := 0;
      var todo := Listed(State());
      ghost var done: set<string> := {};
      ScannedNothing(s, overlayMtu, scan);
      while todo != {}
        invariant todo !! done && todo + done == Listed(s) && Scanned(s, scan, done, recovered)
        decreases todo
      {
        var port :| port in todo;
        todo := todo - {port};
        recovered := ScanNext(port, known, scan, s, done, recovered);
        done := done + {port};
      }
      assert done == Listed(s);
      ScannedAll(s, overlayMtu, scan);
    }

    method RecoverLinkTunnels(env: Env, scan: ScanEnv) returns (recovered: nat)
      requires Valid(State()) && Identified(State())
      modifies this
      ensures (State(), recovered) == Recover(old(State()), overlayMtu, env, scan)
    {
      var cached := LoadCache(State());
      if cached.Some? {
        DeclareKeepsIds(State(), cached.value, {}, overlayMtu, env);
        var result := DeclareState(cached.value, {}, env);
        if Recovered(result) > 0 { return Recovered(result); }
      }
      recovered := ScanPorts(scan);
    }
  }

  // ---- The fallback scan, port by port ----

  ghost predicate Knows(known: map<string, string>, tracking: map<string, LinkTunnel>, order: seq<string>) {
    forall p :: KnownLink(tracking, order, p) == if p in known then Some(known[p]) else None
  }

  lemma KnowsOneMore(known: map<string, string>, tracking: map<string, LinkTunnel>, order: seq<string>, k: string)
    requires Knows(known, tracking, order)
    ensures if k in tracking && tracking[k].linkId != "" && tracking[k].linkId != tracking[k].interfaceName
            then Knows(known[tracking[k].interfaceName := tracking[k].linkId], tracking, order + [k])
            else Knows(known, tracking, order + [k])
  {
    assert (order + [k])[..|order|] == order;
  }

  /** The table once the ports `done` have been scanned. */
  function ScannedUpTo(s: Overlay, overlayMtu: int, scan: ScanEnv, done: set<string>): map<string, LinkTunnel> {
    map k | k in s.tracking ::
      var p := s.tracking[k].interfaceName;
      if p in done && KnownLink(s.tracking, s.order, p) == Some(k) && Refreshed(s, p, overlayMtu, scan).Some?
      then Refreshed(s, p, overlayMtu, scan).value else s.tracking[k]
  }

  /** The ports the scan looks at. */
  function Listed(s: Overlay): set<string> { set p | p in s.world.ports && "vxlan-" <= p }

  function FoundIn(s: Overlay, overlayMtu: int, scan: ScanEnv, done: set<string>): set<string> {
    set p | p in done && Refreshed(s, p, overlayMtu, scan).Some?
  }

  lemma FoundOneMore(s: Overlay, overlayMtu: int, scan: ScanEnv, done: set<string>, port: string)
    ensures FoundIn(s, overlayMtu, scan, done + {port})
         == FoundIn(s, overlayMtu, scan, done) + if Refreshed(s, port, overlayMtu, scan).Some? then {port} else {}
  {
  }

  lemma ScannedNothing(s: Overlay, overlayMtu: int, scan: ScanEnv)
    ensures ScannedUpTo(s, overlayMtu, scan, {}) == s.tracking && FoundIn(s, overlayMtu, scan, {}) == {}
  {
  }

  lemma ScanOneMore(s: Overlay, overlayMtu: int, scan: ScanEnv, done: set<string>, port: string)
    requires Identified(s) && port !in done
    ensures var now, next := ScannedUpTo(s, overlayMtu, scan, done), ScannedUpTo(s, overlayMtu, scan, done + {port});
            match Refreshed(s, port, overlayMtu, scan)
            case None => next == now
            case Some(lt) =>
              && lt.linkId in s.tracking && lt.linkId in now && now[lt.linkId] == s.tracking[lt.linkId]
              && next == now[lt.linkId := lt]
  {
    KnownLinkIsTracked(s, s.order, port);
  }

  lemma ScannedAll(s: Overlay, overlayMtu: int, scan: ScanEnv)
    requires scan.listOk
    ensures var (s', n) := Scan(s, overlayMtu, scan);
            && s' == s.(tracking := ScannedUpTo(s, overlayMtu, scan, Listed(s)))
            && n == |FoundIn(s, overlayMtu, scan, Listed(s))|
  {
    var (s', n) := Scan(s, overlayMtu, scan);
    assert Refreshable(s, overlayMtu, scan) == FoundIn(s, overlayMtu, scan, Listed(s));
    assert s'.tracking == ScannedUpTo(s, overlayMtu, scan, Listed(s));
  }
}
