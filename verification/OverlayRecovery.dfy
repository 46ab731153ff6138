/** Recovery of the tracking table after an agent crash: recover_link_tunnels. */
module OverlayRecovery {
  import opened Wrappers
  import opened OverlayWorld
  import opened OverlayState
  import opened OverlayTheorems
  import opened OverlaySafety

  /** Outcomes of the fallback scan: listing, then per port the tag query and `ip -d link show`. */
  datatype ScanEnv = ScanEnv(listOk: bool, tagOk: string -> bool, showOk: string -> bool)

  /** load_declared_state_cache: an empty list counts as no cache. */
  function LoadCache(s: Overlay): Option<seq<Tunnel>> {
    if s.cache.Some? && s.cache.value == [] then None else s.cache
  }

  function Recovered(r: DeclareResult): nat {
    match r
    case Skipped => 0
    case Declared(results, _) => CountRecovered(results)
  }

  function CountRecovered(results: seq<TunnelResult>): (n: nat)
    ensures n > 0 <==> exists i :: 0 <= i < |results| && results[i].status in {Converged, Updated, Created}
  {
    if results == [] then 0
    else
      var rest := CountRecovered(results[1..]);
      assert results == [results[0]] + results[1..];
      rest + if results[0].status in {Converged, Updated, Created} then 1 else 0
  }

  /** The link id the fallback knows for `port`: the last tracked one over it that is not just the
      interface name. */
  function KnownLink(tracking: map<string, LinkTunnel>, order: seq<string>, port: string): Option<string> {
    if order == [] then None
    else
      var k := order[|order| - 1];
      if k in tracking && tracking[k].interfaceName == port && tracking[k].linkId != "" && tracking[k].linkId != port
      then Some(tracking[k].linkId)
      else KnownLink(tracking, order[..|order| - 1], port)
  }

  /** The refreshed entry for `port`, when the scan can read it and knows its link. */
  function Refreshed(s: Overlay, port: string, overlayMtu: int, env: ScanEnv): Option<LinkTunnel> {
    var link := KnownLink(s.tracking, s.order, port);
    if port !in s.world.ports || !("vxlan-" <= port) || link == None then None
    else if !env.showOk(port) || port !in s.world.devices then None
    else
      var d := s.world.devices[port];
      if d.vni == 0 || d.remoteIp == "" then None
      else Some(LinkTunnel(link.value, d.vni, d.localIp, d.remoteIp,
                           if env.tagOk(port) then s.world.ports[port].tag else 0, port,
                           if link.value in s.tracking then s.tracking[link.value].labId else "recovered", overlayMtu))
  }

  /** The ports whose tracking entry the scan rewrites. */
  function Refreshable(s: Overlay, overlayMtu: int, env: ScanEnv): set<string> {
    set p | p in s.world.ports && Refreshed(s, p, overlayMtu, env).Some?
  }

  /** The fallback: entries of known links are replaced by what bridge and kernel say. */
  function Scan(s: Overlay, overlayMtu: int, env: ScanEnv): (Overlay, nat) {
    if !env.listOk then (s, 0)
    else
      var ports := Refreshable(s, overlayMtu, env);
      (s.(tracking := map k | k in s.tracking ::
            var p := s.tracking[k].interfaceName;
            if p in ports && KnownLink(s.tracking, s.order, p) == Some(k)
            then Refreshed(s, p, overlayMtu, env).value else s.tracking[k]),
       |ports|)
  }

  /** recover_link_tunnels. */
  function Recover(s: Overlay, overlayMtu: int, env: Env, scan: ScanEnv): (Overlay, nat) {
    match LoadCache(s)
    case None => Scan(s, overlayMtu, scan)
    case Some(cached) =>
      var (s', r) := Declare(s, cached, {}, overlayMtu, env);
      if Recovered(r) > 0 then (s', Recovered(r)) else Scan(s', overlayMtu, scan)
  }

  // ---- Crash recovery ----

  /** The agent process is gone: the tracking table is lost, bridge and cache file survive. */
  function Crash(s: Overlay): Overlay { s.(tracking := map[], order := []) }

  lemma {:induction false} CacheableIsLive(tunnels: seq<Tunnel>)
    ensures forall t :: t in Cacheable(tunnels) <==> t in tunnels && !IsProtected(t)
    ensures forall t :: t in Cacheable(tunnels) <==>
              t in tunnels && !t.placeholder && t.localIp != "" && t.remoteIp != "" && t.vni != 0
  {
    if tunnels != [] {
      CacheableIsLive(tunnels[1..]);
      assert tunnels == [tunnels[0]] + tunnels[1..];
    }
  }

  lemma {:induction false} CacheableIsIdempotent(tunnels: seq<Tunnel>)
    ensures Cacheable(Cacheable(tunnels)) == Cacheable(tunnels)
  {
    if tunnels != [] {
      CacheableIsIdempotent(tunnels[1..]);
      var rest := Cacheable(tunnels[1..]);
      if IsCacheable(tunnels[0]) { assert ([tunnels[0]] + rest)[1..] == rest; }
      else { assert [] + rest == rest; }
    }
  }

  /** Every cached tunnel sits at a place of its own in the declaration. */
  lemma CacheablePlace(tunnels: seq<Tunnel>, j: nat) returns (c: nat)
    requires j < |Cacheable(tunnels)|
    ensures c < |tunnels| && tunnels[c] == Cacheable(tunnels)[j]
  {
    CacheableIsLive(tunnels);
    assert Cacheable(tunnels)[j] in Cacheable(tunnels);
    c :| 0 <= c < |tunnels| && tunnels[c] == Cacheable(tunnels)[j];
  }

  /** The `i`-th cacheable tunnel, seen from behind the first tunnel. */
  lemma CacheableBehind(tunnels: seq<Tunnel>, i: nat)
    requires i < |Cacheable(tunnels)|
    ensures tunnels != [] && var rest := Cacheable(tunnels[1..]);
            if !IsCacheable(tunnels[0]) then i < |rest| && Cacheable(tunnels)[i] == rest[i]
            else if i > 0 then i <= |rest| && Cacheable(tunnels)[i] == rest[i - 1]
            else Cacheable(tunnels)[i] == tunnels[0]
  {
  }

  lemma {:induction false} CacheablePlaces(tunnels: seq<Tunnel>, i: nat, j: nat) returns (a: nat, b: nat)
    requires i < j < |Cacheable(tunnels)|
    ensures a < b < |tunnels| && tunnels[a] == Cacheable(tunnels)[i] && tunnels[b] == Cacheable(tunnels)[j]
  {
    CacheableBehind(tunnels, i);
    CacheableBehind(tunnels, j);
    if !IsCacheable(tunnels[0]) {
      a, b := CacheablePlaces(tunnels[1..], i, j);
      a, b := a + 1, b + 1;
    } else if i > 0 {
      a, b := CacheablePlaces(tunnels[1..], i - 1, j - 1);
      a, b := a + 1, b + 1;
    } else {
      var c := CacheablePlace(tunnels[1..], j - 1);
      a, b := 0, c + 1;
    }
  }

  lemma CacheableIsProper(tunnels: seq<Tunnel>)
    requires Proper(tunnels)
    ensures Proper(Cacheable(tunnels))
  {
    CacheableIsLive(tunnels);
    var c := Cacheable(tunnels);
    forall i, j | 0 <= i < j < |c| ensures c[i].portName != c[j].portName && c[i].linkId != c[j].linkId {
      assert c[i] in c && c[j] in c;
      var a, b := CacheablePlaces(tunnels, i, j);
    }
  }

  /** The bridge side of a good tunnel, which survives a crash. */
  ghost predicate PortGood(w: World, t: Tunnel) {
    var n := t.portName;
    && n in w.ports && w.ports[n].healthy && n in w.devices
    && (t.expectedVlan > 0 ==> w.ports[n].tag == t.expectedVlan)
    && (t.mtu > 0 ==> w.devices[n].mtu == t.mtu)
  }

  lemma DeclareGoodPort(s: Overlay, snapshot: map<string, OvsPort>, t: Tunnel, overlayMtu: int, rc: Rc)
    requires !IsProtected(t) && PortGood(s.world, t) && Reads(snapshot, s.world, t.portName)
    ensures DeclareTunnel(s, snapshot, t, overlayMtu, rc)
         == (Track(s, Entry(t, overlayMtu)), TunnelResult(t.linkId, t.labId, Converged, s.world.ports[t.portName].tag))
  {
  }

  /** The tracking table is exactly the declared entries of the first `k` tunnels. */
  ghost predicate TracksExactly(s: Overlay, tunnels: seq<Tunnel>, overlayMtu: int, k: nat)
    requires k <= |tunnels|
  {
    && (forall i :: 0 <= i < k ==>
          tunnels[i].linkId in s.tracking && TrackedAs(s.tracking[tunnels[i].linkId], tunnels[i], overlayMtu))
    && (forall l :: l in s.tracking ==> exists i :: 0 <= i < k && tunnels[i].linkId == l)
  }

  lemma TracksOneMore(s: Overlay, tunnels: seq<Tunnel>, overlayMtu: int, k: nat)
    requires 0 < k <= |tunnels| && WellOrdered(s) && TracksExactly(s, tunnels, overlayMtu, k - 1)
    requires forall i :: 0 <= i < k - 1 ==> tunnels[i].linkId != tunnels[k - 1].linkId
    ensures var s' := Track(s, Entry(tunnels[k - 1], overlayMtu));
            WellOrdered(s') && TracksExactly(s', tunnels, overlayMtu, k)
  {
    StillOrdered(s, Entry(tunnels[k - 1], overlayMtu));
  }

  lemma StillOrdered(s: Overlay, lt: LinkTunnel)
    requires WellOrdered(s)
    ensures WellOrdered(Track(s, lt))
  {
  }

  /** The state in which the first `k` good ports have been tracked. */
  ghost predicate Rebuilt(s: Overlay, s': Overlay, results: seq<TunnelResult>, tunnels: seq<Tunnel>, overlayMtu: int,
                          k: nat)
    requires k <= |tunnels| && |results| == k
  {
    && s'.world == s.world && s'.cache == s.cache && WellOrdered(s')
    && TracksExactly(s', tunnels, overlayMtu, k)
    && forall i :: 0 <= i < k ==> results[i].status == Converged
  }

  lemma {:induction false} Rebuild(s: Overlay, snapshot: map<string, OvsPort>, tunnels: seq<Tunnel>, overlayMtu: int,
                                   rcs: nat -> Rc, k: nat)
    requires WellOrdered(s) && s.tracking == map[] && Proper(tunnels) && k <= |tunnels|
    requires forall i :: 0 <= i < |tunnels| ==>
               !IsProtected(tunnels[i]) && PortGood(s.world, tunnels[i])
               && Reads(snapshot, s.world, tunnels[i].portName)
    ensures var (s', results) := DeclareTunnels(s, snapshot, tunnels, overlayMtu, rcs, k);
            Rebuilt(s, s', results, tunnels, overlayMtu, k)
  {
    if k > 0 {
      Rebuild(s, snapshot, tunnels, overlayMtu, rcs, k - 1);
      var (s1, results) := DeclareTunnels(s, snapshot, tunnels, overlayMtu, rcs, k - 1);
      DeclareGoodPort(s1, snapshot, tunnels[k - 1], overlayMtu, rcs(k - 1));
      TracksOneMore(s1, tunnels, overlayMtu, k);
      RebuiltStep(s, s1, results, tunnels, overlayMtu, k, s.world.ports[tunnels[k - 1].portName].tag);
    }
  }

  lemma RebuiltStep(s: Overlay, s1: Overlay, results: seq<TunnelResult>, tunnels: seq<Tunnel>, overlayMtu: int, k: nat,
                    tag: int)
    requires 0 < k <= |tunnels| && |results| == k - 1 && Rebuilt(s, s1, results, tunnels, overlayMtu, k - 1)
    requires var s' := Track(s1, Entry(tunnels[k - 1], overlayMtu));
             WellOrdered(s') && TracksExactly(s', tunnels, overlayMtu, k)
    ensures var t := tunnels[k - 1];
            Rebuilt(s, Track(s1, Entry(t, overlayMtu)), results + [TunnelResult(t.linkId, t.labId, Converged, tag)],
                    tunnels, overlayMtu, k)
  {
  }

  /** With only declared links tracked, there is no orphan. */
  lemma NoOrphanAmongDeclared(s: Overlay, snapshot: map<string, OvsPort>, tunnels: seq<Tunnel>, labs: set<string>,
                              overlayMtu: int)
    requires WellOrdered(s) && TracksExactly(s, tunnels, overlayMtu, |tunnels|)
    ensures Orphans(s, snapshot, DeclaredNames(tunnels), DeclaredLabs(tunnels, labs)) == {}
  {
    forall p | p !in DeclaredNames(tunnels) ensures FirstOwner(s.tracking, s.order, p) == None {
      OwnerIsTracked(s.tracking, s.order, p);
      assert forall i :: 0 <= i < |tunnels| ==> tunnels[i].portName in DeclaredNames(tunnels);
    }
  }

  /** Declaring good ports to an agent that tracks nothing only rebuilds the table. */
  lemma DeclareRebuilds(s: Overlay, c: seq<Tunnel>, overlayMtu: int, env: Env)
    requires WellOrdered(s) && s.tracking == map[] && Proper(c) && ReadComplete(env)
    requires forall i :: 0 <= i < |c| ==> !IsProtected(c[i]) && PortGood(s.world, c[i])
    requires s.cache == Some(Cacheable(c))
    ensures var (s', r) := Declare(s, c, {}, overlayMtu, env);
            r.Declared? && r.orphansRemoved == {} && |r.results| == |c| && Rebuilt(s, s', r.results, c, overlayMtu, |c|)
  {
    var snapshot := ReadPorts(s.world, true, true, true).value;
    Rebuild(s, snapshot, c, overlayMtu, env.tunnel, |c|);
    var s1 := DeclareTunnels(s, snapshot, c, overlayMtu, env.tunnel, |c|).0;
    NoOrphanAmongDeclared(s1, snapshot, c, {}, overlayMtu);
    RemoveNothing(s1, env.orphan);
    DeclareUnfolded(s, snapshot, c, {}, overlayMtu, env);
  }

  lemma LivePortsAreGood(s: Overlay, tunnels: seq<Tunnel>, overlayMtu: int)
    requires AllGood(s, tunnels, overlayMtu)
    ensures forall t :: t in Cacheable(tunnels) ==> !IsProtected(t) && PortGood(s.world, t)
  {
    CacheableIsLive(tunnels);
    forall t | t in Cacheable(tunnels) ensures PortGood(s.world, t) {
      var j :| 0 <= j < |tunnels| && tunnels[j] == t;
      assert Good(s, tunnels[j], overlayMtu);
    }
  }

  /** With neither cache nor tracking there is nothing to recover. */
  lemma ScanOfNothing(s: Overlay, overlayMtu: int, scan: ScanEnv)
    requires s.tracking == map[] && s.order == []
    ensures Scan(s, overlayMtu, scan) == (s, 0)
  {
    assert Refreshable(s, overlayMtu, scan) == {};
  }

  /** Every tracked link is one of the live tunnels. */
  ghost predicate TracksOnlyLive(s: Overlay, tunnels: seq<Tunnel>) {
    forall l :: l in s.tracking ==> exists i :: 0 <= i < |tunnels| && !IsProtected(tunnels[i]) && tunnels[i].linkId == l
  }

  lemma {:induction false} AllCount(results: seq<TunnelResult>)
    requires forall i :: 0 <= i < |results| ==> results[i].status == Converged
    ensures CountRecovered(results) == |results|
  {
    if results != [] { AllCount(results[1..]); }
  }

  lemma RecoverFromCache(s: Overlay, c: seq<Tunnel>, overlayMtu: int, env: Env, scan: ScanEnv)
    requires s.cache == Some(c) && c != []
    requires var r := Declare(s, c, {}, overlayMtu, env).1;
             r.Declared? && |r.results| == |c| && forall i :: 0 <= i < |c| ==> r.results[i].status == Converged
    ensures Recover(s, overlayMtu, env, scan) == (Declare(s, c, {}, overlayMtu, env).0, |c|)
  {
    AllCount(Declare(s, c, {}, overlayMtu, env).1.results);
  }

  /** Crash recovery.  From a state that is as declared, losing the whole tracking table and
      recovering with a complete reading gives back exactly the entries of the live tunnels and counts
      each of them, while bridge and cache file stay as they are, whatever other commands would return. */
  lemma CrashRecovery(s: Overlay, tunnels: seq<Tunnel>, overlayMtu: int, env: Env, scan: ScanEnv)
    requires Valid(s) && Proper(tunnels) && AllGood(s, tunnels, overlayMtu)
    requires s.cache == Some(Cacheable(tunnels)) && ReadComplete(env)
    ensures var (s', n) := Recover(Crash(s), overlayMtu, env, scan);
            && s'.world == s.world && s'.cache == s.cache && Valid(s')
            && AllGood(s', tunnels, overlayMtu)
            && TracksOnlyLive(s', tunnels) && n == |Cacheable(tunnels)|
  {
    var c := Cacheable(tunnels);
    var s0 := Crash(s);
    LivePortsAreGood(s, tunnels, overlayMtu);
    if c == [] {
      CacheableIsLive(tunnels);
      assert forall i :: 0 <= i < |tunnels| ==> tunnels[i] in tunnels;
      ScanOfNothing(s0, overlayMtu, scan);
    } else {
      CacheableIsProper(tunnels);
      CacheableIsIdempotent(tunnels);
      DeclareRebuilds(s0, c, overlayMtu, env);
      RecoverFromCache(s0, c, overlayMtu, env, scan);
      RebuiltIsGood(s, Declare(s0, c, {}, overlayMtu, env).0, tunnels, overlayMtu);
    }
  }

  lemma RebuiltIsGood(s: Overlay, s1: Overlay, tunnels: seq<Tunnel>, overlayMtu: int)
    requires AllGood(s, tunnels, overlayMtu) && s1.world == s.world
    requires TracksExactly(s1, Cacheable(tunnels), overlayMtu, |Cacheable(tunnels)|)
    ensures AllGood(s1, tunnels, overlayMtu)
    ensures TracksOnlyLive(s1, tunnels)
  {
    var c := Cacheable(tunnels);
    CacheableIsLive(tunnels);
    forall i | 0 <= i < |tunnels| && !IsProtected(tunnels[i]) ensures Good(s1, tunnels[i], overlayMtu) {
      assert tunnels[i] in c;
      var j :| 0 <= j < |c| && c[j] == tunnels[i];
      assert Good(s, tunnels[i], overlayMtu);
    }
    forall l | l in s1.tracking
      ensures exists i :: 0 <= i < |tunnels| && !IsProtected(tunnels[i]) && tunnels[i].linkId == l
    {
      var j :| 0 <= j < |c| && c[j].linkId == l;
      assert c[j] in c;
      var i :| 0 <= i < |tunnels| && tunnels[i] == c[j];
    }
  }

  lemma {:induction false} KnownLinkIsTracked(s: Overlay, order: seq<string>, p: string)
    requires Identified(s)
    ensures var l := KnownLink(s.tracking, order, p);
            l.Some? ==> l.value in s.tracking && l.value in order && s.tracking[l.value].interfaceName == p
  {
    if order != [] { KnownLinkIsTracked(s, order[..|order| - 1], p); }
  }

  /** Bridge and kernel both know the port, and the kernel its VNI and peer. */
  predicate Readable(s: Overlay, p: string, scan: ScanEnv) {
    && scan.listOk && p in s.world.ports && "vxlan-" <= p && scan.showOk(p)
    && p in s.world.devices && s.world.devices[p].vni != 0 && s.world.devices[p].remoteIp != ""
  }

  /** The link `k` is the last one tracked over its port under a name other than the port's. */
  predicate Known(s: Overlay, k: string) {
    k in s.tracking && KnownLink(s.tracking, s.order, s.tracking[k].interfaceName) == Some(k)
  }

  /** The links that the scan refreshes. */
  function RefreshedLinks(s: Overlay, scan: ScanEnv): set<string> {
    set k | k in s.tracking && Known(s, k) && Readable(s, s.tracking[k].interfaceName, scan)
  }

  function KnownLinksOver(s: Overlay, ports: set<string>): set<string> {
    set k | k in s.tracking && Known(s, k) && s.tracking[k].interfaceName in ports
  }

  /** Each port with a known link has one. */
  lemma {:induction false} OneLinkEach(s: Overlay, ports: set<string>)
    requires Identified(s) && forall p <- ports :: KnownLink(s.tracking, s.order, p).Some?
    ensures |KnownLinksOver(s, ports)| == |ports|
    decreases ports
  {
    if ports == {} {
      assert KnownLinksOver(s, ports) == {};
    } else {
      var p :| p in ports;
      OneLinkEach(s, ports - {p});
      KnownLinkIsTracked(s, s.order, p);
      var k := KnownLink(s.tracking, s.order, p).value;
      assert KnownLinksOver(s, ports) == KnownLinksOver(s, ports - {p}) + {k};
    }
  }

  /** The fallback invents and forgets no link and keeps each link's lab and interface.  A known link over
      a readable port gets the kernel's VNI and addresses and the bridge's tag, or 0 when that cannot be
      read; every other entry is as before; and those refreshed are counted. */
  lemma ScanKeepsLinks(s: Overlay, overlayMtu: int, scan: ScanEnv)
    requires Identified(s)
    ensures var (s', n) := Scan(s, overlayMtu, scan);
            && s' == s.(tracking := s'.tracking) && s'.tracking.Keys == s.tracking.Keys
            && n == |RefreshedLinks(s, scan)|
            && forall k :: k in s.tracking ==>
                 var p := s.tracking[k].interfaceName;
                 if k in RefreshedLinks(s, scan) then
                   var d := s.world.devices[p];
                   s'.tracking[k] == LinkTunnel(k, d.vni, d.localIp, d.remoteIp,
                                                if scan.tagOk(p) then s.world.ports[p].tag else 0, p,
                                                s.tracking[k].labId, overlayMtu)
                 else s'.tracking[k] == s.tracking[k]
  {
    if scan.listOk {
      var ports := Refreshable(s, overlayMtu, scan);
      OneLinkEach(s, ports);
      assert RefreshedLinks(s, scan) == KnownLinksOver(s, ports);
    } else {
      assert RefreshedLinks(s, scan) == {};
    }
  }

  // ---- In plain terms ----

  /** The link `k` runs over its port under a name of its own. */
  ghost predicate Names(s: Overlay, k: string, p: string) {
    k in s.tracking && s.tracking[k].interfaceName == p && k != "" && k != p
  }

  ghost predicate LastNaming(s: Overlay, order: seq<string>, j: int, k: string, p: string) {
    && 0 <= j < |order| && order[j] == k && Names(s, k, p)
    && forall i :: j < i < |order| ==> !Names(s, order[i], p)
  }

  ghost predicate IsLastNaming(s: Overlay, order: seq<string>, p: string, link: Option<string>) {
    if link.Some? then exists j :: LastNaming(s, order, j, link.value, p)
    else forall i :: 0 <= i < |order| ==> !Names(s, order[i], p)
  }

  lemma {:induction false} KnownLinkIsLast(s: Overlay, order: seq<string>, p: string)
    requires Identified(s)
    ensures IsLastNaming(s, order, p, KnownLink(s.tracking, order, p))
  {
    if order != [] {
      var front, last := order[..|order| - 1], order[|order| - 1];
      KnownLinkIsLast(s, front, p);
      assert last in s.tracking ==> s.tracking[last].linkId == last;
      assert KnownLink(s.tracking, order, p)
          == if Names(s, last, p) then Some(last) else KnownLink(s.tracking, front, p);
      if Names(s, last, p) {
        assert LastNaming(s, order, |order| - 1, last, p);
      } else if KnownLink(s.tracking, front, p).Some? {
        var k := KnownLink(s.tracking, front, p).value;
        var j :| LastNaming(s, front, j, k, p);
        assert order[j] == k;
        forall i | j < i < |order| ensures !Names(s, order[i], p) {
          if i < |front| { assert front[i] == order[i]; }
        }
        assert LastNaming(s, order, j, k, p);
      } else {
        forall i | 0 <= i < |order| ensures !Names(s, order[i], p) {
          if i < |front| { assert front[i] == order[i]; }
        }
      }
    }
  }

  /** Which link the scan takes a port for: the last tracked one over it whose id is not just the name of
      the port. */
  lemma KnownIff(s: Overlay, j: nat)
    requires Identified(s) && WellOrdered(s) && j < |s.order|
    ensures var p := s.tracking[s.order[j]].interfaceName;
            Known(s, s.order[j])
            <==> Names(s, s.order[j], p) && forall i :: j < i < |s.order| ==> !Names(s, s.order[i], p)
  {
    var p := s.tracking[s.order[j]].interfaceName;
    KnownLinkIsLast(s, s.order, p);
    if Known(s, s.order[j]) {
      var i :| LastNaming(s, s.order, i, s.order[j], p);
      assert i == j;
    }
  }

  ghost function Counts(r: TunnelResult): nat { if r.status == Protected || r.status == Error then 0 else 1 }

  /** Recovery counts, one by one, the tunnels that the declaration did not report as protected or failed. */
  lemma {:induction false} CountsOneByOne(results: seq<TunnelResult>, r: TunnelResult)
    ensures CountRecovered(results + [r]) == CountRecovered(results) + Counts(r)
  {
    var more := results + [r];
    if results == [] {
      assert more[1..] == [] && more[0] == r;
      assert CountRecovered(more[1..]) == 0;
      assert CountRecovered(results) == 0 && CountRecovered(more) == CountRecovered(more[1..]) + Counts(r);
    } else {
      assert more[1..] == results[1..] + [r] && more[0] == results[0];
      CountsOneByOne(results[1..], r);
    }
  }

  ghost predicate NoneRecovered(r: DeclareResult) {
    r.Skipped? || forall i :: 0 <= i < |r.results| ==> r.results[i].status == Protected || r.results[i].status == Error
  }

  lemma NoneIsZero(r: DeclareResult)
    ensures NoneRecovered(r) <==> Recovered(r) == 0
  {
  }

  /** The cache is tried first; the scan is made, and its number returned, when there is no cache, an empty one,
      or one from which no tunnel was recovered. */
  lemma RecoverTriesCacheFirst(s: Overlay, overlayMtu: int, env: Env, scan: ScanEnv)
    ensures var cached := s.cache.Some? && s.cache.value != [];
            && (!cached ==> Recover(s, overlayMtu, env, scan) == Scan(s, overlayMtu, scan))
            && (cached ==>
                  var (s1, r) := Declare(s, s.cache.value, {}, overlayMtu, env);
                  Recover(s, overlayMtu, env, scan)
                  == if NoneRecovered(r) then Scan(s1, overlayMtu, scan) else (s1, CountRecovered(r.results)))
  {
    if s.cache.Some? && s.cache.value != [] {
      NoneIsZero(Declare(s, s.cache.value, {}, overlayMtu, env).1);
    }
  }
}
