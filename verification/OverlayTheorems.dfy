/** What declare_state promises: convergence, idempotence, scoped orphan removal, safety. */
module OverlayTheorems {
  import opened Wrappers
  import opened OverlayWorld
  import opened OverlayState

  /** The tracking entry says of the link what `t` declares. */
  ghost predicate TrackedAs(lt: LinkTunnel, t: Tunnel, overlayMtu: int) {
    && lt.linkId == t.linkId && lt.labId == t.labId && lt.interfaceName == t.portName
    && lt.vni == t.vni && lt.localIp == t.localIp && lt.remoteIp == t.remoteIp && lt.localVlan == t.expectedVlan
    && lt.tenantMtu == if t.mtu > 0 then t.mtu else overlayMtu
  }

  /** The bridge and the tracking table are as `t` declares. */
  ghost predicate Good(s: Overlay, t: Tunnel, overlayMtu: int) {
    var n := t.portName;
    && n in s.world.ports && s.world.ports[n].healthy && n in s.world.devices
    && (t.expectedVlan > 0 ==> s.world.ports[n].tag == t.expectedVlan)
    && (t.mtu > 0 ==> s.world.devices[n].mtu == t.mtu)
    && t.linkId in s.tracking && TrackedAs(s.tracking[t.linkId], t, overlayMtu)
  }

  ghost predicate AllGood(s: Overlay, tunnels: seq<Tunnel>, overlayMtu: int) {
    forall i :: 0 <= i < |tunnels| && !IsProtected(tunnels[i]) ==> Good(s, tunnels[i], overlayMtu)
  }

  /** The hypotheses on one declaration: its live tunnels have different links and ports, and port
      names that a bridge read reports. */
  ghost predicate Proper(tunnels: seq<Tunnel>) {
    && (forall i :: 0 <= i < |tunnels| && !IsProtected(tunnels[i]) ==> VxlanName(tunnels[i].portName))
    && (forall i, j :: 0 <= i < j < |tunnels| && !IsProtected(tunnels[i]) && !IsProtected(tunnels[j]) ==>
          tunnels[i].portName != tunnels[j].portName && tunnels[i].linkId != tunnels[j].linkId)
  }

  ghost predicate Valid(s: Overlay) { WellFormed(s.world) && WellOrdered(s) }

  /** The snapshot tells the truth about `n`. */
  ghost predicate Reads(snapshot: map<string, OvsPort>, w: World, n: string) {
    && (n in snapshot <==> n in w.ports) && (n in snapshot ==> snapshot[n] == w.ports[n])
  }

  /** The snapshot is right about whether `n` exists; it may call a healthy port broken. */
  ghost predicate ReadsPresence(snapshot: map<string, OvsPort>, w: World, n: string) {
    && (n in snapshot <==> n in w.ports) && (n in snapshot && snapshot[n].healthy ==> snapshot[n] == w.ports[n])
  }

  // ---- One tunnel ----

  /** From `s` to `s'` only the port, device and link of `t` may have changed. */
  ghost predicate OnlyTouches(s: Overlay, s': Overlay, t: Tunnel) {
    && s'.cache == s.cache && s.order <= s'.order
    && SameExcept(s.world, s'.world, t.portName)
    && (forall k :: k in s.tracking ==> k in s'.tracking)
    && (forall k :: k in s'.tracking ==>
          (k in s.tracking && s'.tracking[k] == s.tracking[k]) || IsFor(s'.tracking[k], k, t))
  }

  ghost predicate IsFor(lt: LinkTunnel, k: string, t: Tunnel) {
    && k == t.linkId == lt.linkId && lt.interfaceName == t.portName && lt.labId == t.labId && !IsProtected(t)
    && lt.vni == t.vni && lt.localIp == t.localIp && lt.remoteIp == t.remoteIp && lt.localVlan == t.expectedVlan
  }

  lemma TrackTouchesOnly(s: Overlay, w: World, lt: LinkTunnel, t: Tunnel)
    requires Valid(s) && WellFormed(w) && SameExcept(s.world, w, t.portName) && IsFor(lt, lt.linkId, t)
    ensures var s' := Track(s.(world := w), lt); Valid(s') && OnlyTouches(s, s', t)
  {
  }

  lemma ExistingFrame(s: Overlay, current: nat, t: Tunnel, overlayMtu: int, rc: Rc)
    requires Valid(s) && !IsProtected(t)
    ensures var s' := DeclareExisting(s, current, t, overlayMtu, rc).0; Valid(s') && OnlyTouches(s, s', t)
  {
    var s' := DeclareExisting(s, current, t, overlayMtu, rc).0;
    TrackTouchesOnly(s, s'.world, Entry(t, overlayMtu), t);
  }

  lemma MissingWorldFrame(w: World, t: Tunnel, overlayMtu: int, rc: Rc)
    requires WellFormed(w)
    ensures var w' := MissingWorld(w, t, overlayMtu, rc).0; WellFormed(w') && SameExcept(w, w', t.portName)
  {
    var w1 := if rc.linkShow && t.portName in w.devices then LinkDelete(w, t.portName, rc.linkDelete) else w;
    CreateDeviceContract(w1, t.portName, t.vni, t.localIp, t.remoteIp, TagOf(t.expectedVlan),
                         DeviceMtu(t.mtu, overlayMtu), overlayMtu, rc);
    SameExceptTransitive(w, w1, MissingWorld(w, t, overlayMtu, rc).0, t.portName);
  }

  lemma MissingFrame(s: Overlay, w: World, t: Tunnel, overlayMtu: int, rc: Rc)
    requires Valid(s) && !IsProtected(t) && WellFormed(w) && SameExcept(s.world, w, t.portName)
    ensures var s' := DeclareMissing(s, w, t, overlayMtu, rc).0; Valid(s') && OnlyTouches(s, s', t)
  {
    MissingWorldFrame(w, t, overlayMtu, rc);
    var (w', ok) := MissingWorld(w, t, overlayMtu, rc);
    SameExceptTransitive(s.world, w, w', t.portName);
    if ok {
      TrackTouchesOnly(s, w', Entry(t, overlayMtu).(tenantMtu := DeviceMtu(t.mtu, overlayMtu)), t);
    }
  }

  /** Whatever the commands do, one tunnel only affects its own port, device and link. */
  lemma TunnelFrame(s: Overlay, snapshot: map<string, OvsPort>, t: Tunnel, overlayMtu: int, rc: Rc)
    requires Valid(s)
    ensures var s' := DeclareTunnel(s, snapshot, t, overlayMtu, rc).0;
            Valid(s') && OnlyTouches(s, s', t) && (IsProtected(t) ==> s' == s)
  {
    var n := t.portName;
    if !IsProtected(t) {
      if n in snapshot && snapshot[n].healthy {
        ExistingFrame(s, snapshot[n].tag, t, overlayMtu, rc);
      } else {
        MissingFrame(s, if n in snapshot then DelPort(s.world, n, rc.delPort) else s.world, t, overlayMtu, rc);
      }
    }
  }

  /** A tunnel reported as created runs between the declared endpoints. */
  ghost predicate CreatedAsDeclared(s: Overlay, t: Tunnel, r: TunnelResult) {
    r.status == Created ==> HasEndpoints(s.world, t.portName, t.vni, t.localIp, t.remoteIp)
  }

  /** From a right list of ports and with working commands, one tunnel ends up as declared. */
  lemma TunnelConverges(s: Overlay, snapshot: map<string, OvsPort>, t: Tunnel, overlayMtu: int, rc: Rc)
    requires Valid(s) && !IsProtected(t) && ReadsPresence(snapshot, s.world, t.portName)
    requires AllOk(rc) && overlayMtu > 0
    ensures var (s', r) := DeclareTunnel(s, snapshot, t, overlayMtu, rc);
            && Good(s', t, overlayMtu) && CreatedAsDeclared(s', t, r)
            && r.status in {Converged, Updated, Created}
            && (r.status == Created <==> !(t.portName in snapshot && snapshot[t.portName].healthy))
            && (t.expectedVlan > 0 ==> r.actualVlan == t.expectedVlan)
  {
    var n := t.portName;
    if !(n in snapshot && snapshot[n].healthy) {
      var w := if n in snapshot then DelPort(s.world, n, rc.delPort) else s.world;
      var w1 := if n in w.devices then LinkDelete(w, n, rc.linkDelete) else w;
      assert n !in w1.ports;
      CreateDeviceContract(w1, n, t.vni, t.localIp, t.remoteIp, TagOf(t.expectedVlan),
                           DeviceMtu(t.mtu, overlayMtu), overlayMtu, rc);
    }
  }

  // ---- All tunnels ----

  /** The port names of the live tunnels among the first `k`. */
  ghost function LivePorts(tunnels: seq<Tunnel>, k: nat): set<string>
    requires k <= |tunnels|
  {
    set i | 0 <= i < k && !IsProtected(tunnels[i]) :: tunnels[i].portName
  }

  /** Tracking entry `lt` of link `l` comes from one of the first `k` tunnels. */
  ghost predicate IsForSome(lt: LinkTunnel, l: string, tunnels: seq<Tunnel>, k: nat)
    requires k <= |tunnels|
  {
    exists i :: 0 <= i < k && IsFor(lt, l, tunnels[i])
  }

  /** What the first `k` tunnels may have changed from `s` to `s'`. */
  ghost predicate PhaseFrame(s: Overlay, s': Overlay, tunnels: seq<Tunnel>, k: nat)
    requires k <= |tunnels|
  {
    && s'.cache == s.cache && s.order <= s'.order
    && (forall n :: n !in LivePorts(tunnels, k) ==> SameAt(s.world, s'.world, n))
    && (forall l :: l in s.tracking ==> l in s'.tracking)
    && (forall l :: l in s'.tracking ==>
          (l in s.tracking && s'.tracking[l] == s.tracking[l]) || IsForSome(s'.tracking[l], l, tunnels, k))
  }

  lemma PhaseFrameStep(s: Overlay, s1: Overlay, s': Overlay, tunnels: seq<Tunnel>, k: nat)
    requires 0 < k <= |tunnels| && PhaseFrame(s, s1, tunnels, k - 1)
    requires OnlyTouches(s1, s', tunnels[k - 1]) && (IsProtected(tunnels[k - 1]) ==> s' == s1)
    ensures PhaseFrame(s, s', tunnels, k)
  {
    var t := tunnels[k - 1];
    forall n | n !in LivePorts(tunnels, k) ensures SameAt(s.world, s'.world, n) {
      assert n !in LivePorts(tunnels, k - 1) && (IsProtected(t) || n != t.portName);
      assert SameAt(s.world, s1.world, n) && SameAt(s1.world, s'.world, n);
    }
    forall l | l in s'.tracking
      ensures (l in s.tracking && s'.tracking[l] == s.tracking[l]) || IsForSome(s'.tracking[l], l, tunnels, k)
    {
      if !IsFor(s'.tracking[l], l, t) { assert s'.tracking[l] == s1.tracking[l]; }
    }
  }

  /** Whatever the commands do, the tunnel phase leaves alone every port and device that no live
      tunnel names, forgets no link, and tracks a link anew only as declared. */
  lemma {:induction false} TunnelsFrame(s: Overlay, snapshot: map<string, OvsPort>, tunnels: seq<Tunnel>,
                                        overlayMtu: int, rcs: nat -> Rc, k: nat)
    requires Valid(s) && k <= |tunnels|
    ensures var s' := DeclareTunnels(s, snapshot, tunnels, overlayMtu, rcs, k).0;
            Valid(s') && PhaseFrame(s, s', tunnels, k)
  {
    if k > 0 {
      TunnelsFrame(s, snapshot, tunnels, overlayMtu, rcs, k - 1);
      var s1 := DeclareTunnels(s, snapshot, tunnels, overlayMtu, rcs, k - 1).0;
      TunnelFrame(s1, snapshot, tunnels[k - 1], overlayMtu, rcs(k - 1));
      PhaseFrameStep(s, s1, DeclareTunnel(s1, snapshot, tunnels[k - 1], overlayMtu, rcs(k - 1)).0, tunnels, k);
    }
  }

  ghost predicate Reported(t: Tunnel, r: TunnelResult) {
    if IsProtected(t) then r.status == Protected
    else r.status in {Converged, Updated, Created} && (t.expectedVlan > 0 ==> r.actualVlan == t.expectedVlan)
  }

  /** A good tunnel stays good while another one with different names is handled. */
  lemma GoodIsKept(s: Overlay, s': Overlay, t: Tunnel, other: Tunnel, overlayMtu: int)
    requires Good(s, other, overlayMtu) && OnlyTouches(s, s', t)
    requires other.portName != t.portName && other.linkId != t.linkId
    ensures Good(s', other, overlayMtu)
  {
    assert SameAt(s.world, s'.world, other.portName);
    assert !IsFor(s'.tracking[other.linkId], other.linkId, t);
  }

  /** The first `k` live tunnels are good in `s'` and reported so. */
  ghost predicate Settled(s': Overlay, results: seq<TunnelResult>, tunnels: seq<Tunnel>, overlayMtu: int, k: nat)
    requires k <= |tunnels| && |results| == k
  {
    forall i :: 0 <= i < k ==>
      && (IsProtected(tunnels[i]) || Good(s', tunnels[i], overlayMtu)) && Reported(tunnels[i], results[i])
      && CreatedAsDeclared(s', tunnels[i], results[i])
  }

  lemma SettledStep(s1: Overlay, results: seq<TunnelResult>, s2: Overlay, r: TunnelResult, tunnels: seq<Tunnel>,
                    overlayMtu: int, k: nat)
    requires 0 < k <= |tunnels| && |results| == k - 1 && Proper(tunnels)
    requires Settled(s1, results, tunnels, overlayMtu, k - 1)
    requires OnlyTouches(s1, s2, tunnels[k - 1]) && (IsProtected(tunnels[k - 1]) ==> s2 == s1)
    requires (IsProtected(tunnels[k - 1]) || Good(s2, tunnels[k - 1], overlayMtu)) && Reported(tunnels[k - 1], r)
    requires CreatedAsDeclared(s2, tunnels[k - 1], r)
    ensures Settled(s2, results + [r], tunnels, overlayMtu, k)
  {
    var t := tunnels[k - 1];
    forall i | 0 <= i < k - 1 && !IsProtected(tunnels[i]) ensures Good(s2, tunnels[i], overlayMtu) {
      if !IsProtected(t) { GoodIsKept(s1, s2, t, tunnels[i], overlayMtu); }
    }
    forall i | 0 <= i < k - 1 ensures CreatedAsDeclared(s2, tunnels[i], results[i]) {
      if !IsProtected(t) && !IsProtected(tunnels[i]) { assert SameAt(s1.world, s2.world, tunnels[i].portName); }
    }
  }

  lemma {:induction false} TunnelsConverge(s: Overlay, snapshot: map<string, OvsPort>, tunnels: seq<Tunnel>,
                                           overlayMtu: int, rcs: nat -> Rc, k: nat)
    requires Valid(s) && Proper(tunnels) && k <= |tunnels| && overlayMtu > 0
    requires forall i: nat :: AllOk(rcs(i))
    requires forall n :: VxlanName(n) ==> ReadsPresence(snapshot, s.world, n)
    ensures var (s', results) := DeclareTunnels(s, snapshot, tunnels, overlayMtu, rcs, k);
            Settled(s', results, tunnels, overlayMtu, k)
  {
    if k > 0 {
      var (s1, results) := DeclareTunnels(s, snapshot, tunnels, overlayMtu, rcs, k - 1);
      var t := tunnels[k - 1];
      TunnelsConverge(s, snapshot, tunnels, overlayMtu, rcs, k - 1);
      TunnelsFrame(s, snapshot, tunnels, overlayMtu, rcs, k - 1);
      TunnelFrame(s1, snapshot, t, overlayMtu, rcs(k - 1));
      if !IsProtected(t) {
        assert SameAt(s.world, s1.world, t.portName) by { assert t.portName !in LivePorts(tunnels, k - 1); }
        TunnelConverges(s1, snapshot, t, overlayMtu, rcs(k - 1));
      }
      var (s2, r) := DeclareTunnel(s1, snapshot, t, overlayMtu, rcs(k - 1));
      SettledStep(s1, results, s2, r, tunnels, overlayMtu, k);
    }
  }

  // ---- Orphans ----

  lemma {:induction false} WithoutMembers(order: seq<string>, gone: set<string>)
    ensures forall k :: k in Without(order, gone) <==> k in order && k !in gone
    ensures NoRepeats(order) ==> NoRepeats(Without(order, gone))
  {
    if order != [] {
      var rest := Without(order[1..], gone);
      WithoutMembers(order[1..], gone);
      if NoRepeats(order) {
        assert NoRepeats(order[1..]) && order[0] !in order[1..];
        assert NoRepeats(rest) && NoRepeats([order[0]] + rest);
      }
    }
  }

  lemma {:induction false} WithoutNothing(order: seq<string>)
    ensures Without(order, {}) == order
  {
    if order != [] { WithoutNothing(order[1..]); }
  }

  /** Forgetting the links over other ports does not change who owns `p`. */
  lemma {:induction false} OwnerKept(tracking: map<string, LinkTunnel>, order: seq<string>, gone: set<string>,
                                     p: string)
    requires forall k :: k in gone && k in tracking ==> tracking[k].interfaceName != p
    ensures FirstOwner(tracking - gone, Without(order, gone), p) == FirstOwner(tracking, order, p)
  {
    if order != [] {
      OwnerKept(tracking, order[1..], gone, p);
      var o := Without(order, gone);
      if order[0] !in gone {
        assert o[0] == order[0] && o[1..] == Without(order[1..], gone);
      }
    }
  }

  lemma {:induction false} OwnerIsTracked(tracking: map<string, LinkTunnel>, order: seq<string>, p: string)
    ensures var o := FirstOwner(tracking, order, p);
            o.Some? ==> exists k :: k in order && k in tracking && tracking[k] == o.value && o.value.interfaceName == p
    ensures FirstOwner(tracking, order, p) == None ==>
              forall k :: k in order && k in tracking ==> tracking[k].interfaceName != p
  {
    if order != [] {
      OwnerIsTracked(tracking, order[1..], p);
    }
  }

  /** Removing ports: nothing else on the bridge changes, no tracked link names a removed port, and
      no owner of a remaining port changes. */
  lemma RemovePortsFrame(s: Overlay, ports: set<string>, rc: string -> Rc)
    requires Valid(s)
    ensures var s' := RemovePorts(s, ports, rc);
            && Valid(s') && s'.cache == s.cache
            && (forall n :: n !in ports ==> SameAt(s.world, s'.world, n))
            && (forall k :: k in s'.tracking <==> k in s.tracking && s.tracking[k].interfaceName !in ports)
            && (forall k :: k in s'.tracking ==> s'.tracking[k] == s.tracking[k])
            && (forall p :: p !in ports ==>
                  FirstOwner(s'.tracking, s'.order, p) == FirstOwner(s.tracking, s.order, p))
            && (forall p :: p in ports ==> FirstOwner(s'.tracking, s'.order, p) == None)
  {
    var gone := LinksOver(s, ports);
    WithoutMembers(s.order, gone);
    var s' := RemovePorts(s, ports, rc);
    forall p ensures if p in ports then FirstOwner(s'.tracking, s'.order, p) == None
                     else FirstOwner(s'.tracking, s'.order, p) == FirstOwner(s.tracking, s.order, p) {
      if p in ports {
        OwnerIsTracked(s'.tracking, s'.order, p);
      } else {
        OwnerKept(s.tracking, s.order, gone, p);
      }
    }
  }

  /** Some port on the bridge is undeclared although its first tracked link is in scope. */
  ghost predicate HasOrphan(s: Overlay, tunnels: seq<Tunnel>, labs: set<string>) {
    exists p :: p in s.world.ports && IsOrphan(s, DeclaredNames(tunnels), DeclaredLabs(tunnels, labs), p)
  }

  lemma PrefixIsVxlan(p: string)
    requires "vxlan-" <= p
    ensures VxlanName(p)
  {
    assert "vxlan-"[..5] == "vxlan";
    assert p[..5] == "vxlan-"[..5];
  }

  // ---- Main results ----

  /** Removing undeclared ports keeps the declared tunnels good. */
  lemma RemovalKeepsGood(s: Overlay, tunnels: seq<Tunnel>, ports: set<string>, rc: string -> Rc, overlayMtu: int)
    requires Valid(s) && AllGood(s, tunnels, overlayMtu) && ports !! DeclaredNames(tunnels)
    ensures AllGood(RemovePorts(s, ports, rc), tunnels, overlayMtu)
  {
    RemovePortsFrame(s, ports, rc);
    var s' := RemovePorts(s, ports, rc);
    forall i | 0 <= i < |tunnels| && !IsProtected(tunnels[i]) ensures Good(s', tunnels[i], overlayMtu) {
      assert tunnels[i].portName in DeclaredNames(tunnels);
      assert SameAt(s.world, s'.world, tunnels[i].portName);
    }
  }

  lemma LivePortsAreDeclared(tunnels: seq<Tunnel>)
    ensures LivePorts(tunnels, |tunnels|) <= DeclaredNames(tunnels)
  {
  }

  /** After the orphan phase no undeclared port in scope is left on the bridge. */
  lemma NoOrphanLeft(s: Overlay, s1: Overlay, tunnels: seq<Tunnel>, labs: set<string>, rc: string -> Rc)
    requires Valid(s1)
    requires forall n :: n !in DeclaredNames(tunnels) ==> SameAt(s.world, s1.world, n)
    ensures var snapshot := ReadPorts(s.world, true, true, true).value;
            var orphans := Orphans(s1, snapshot, DeclaredNames(tunnels), DeclaredLabs(tunnels, labs));
            !HasOrphan(RemovePorts(s1, orphans, rc), tunnels, labs)
  {
    var snapshot := ReadPorts(s.world, true, true, true).value;
    var names, scope := DeclaredNames(tunnels), DeclaredLabs(tunnels, labs);
    var orphans := Orphans(s1, snapshot, names, scope);
    RemovePortsFrame(s1, orphans, rc);
    var s2 := RemovePorts(s1, orphans, rc);
    forall p | p in s2.world.ports ensures !IsOrphan(s2, names, scope, p) {
      if p !in names && "vxlan-" <= p && p !in orphans {
        PrefixIsVxlan(p);
        assert SameAt(s.world, s1.world, p);
        assert SameAt(s1.world, s2.world, p);
      }
    }
  }

  /** The declared-state file plays no part in what is good or an orphan. */
  lemma CacheIsApart(s: Overlay, cache: Option<seq<Tunnel>>, tunnels: seq<Tunnel>, labs: set<string>, overlayMtu: int)
    ensures var s' := s.(cache := cache);
            && (Valid(s') <==> Valid(s)) && (AllGood(s', tunnels, overlayMtu) <==> AllGood(s, tunnels, overlayMtu))
            && (HasOrphan(s', tunnels, labs) <==> HasOrphan(s, tunnels, labs))
  {
    var s' := s.(cache := cache);
    assert forall t :: Good(s', t, overlayMtu) <==> Good(s, t, overlayMtu);
  }

  /** The whole of declare_state after a successful reading, as one equation. */
  lemma DeclareUnfolded(s: Overlay, snapshot: map<string, OvsPort>, tunnels: seq<Tunnel>, labs: set<string>,
                        overlayMtu: int, env: Env)
    requires ReadPorts(s.world, env.listOk, env.tagsOk, env.ifacesOk) == Some(snapshot)
    ensures var (s1, results) := DeclareTunnels(s, snapshot, tunnels, overlayMtu, env.tunnel, |tunnels|);
            var orphans := Orphans(s1, snapshot, DeclaredNames(tunnels), DeclaredLabs(tunnels, labs));
            var s2 := RemovePorts(s1, orphans, env.orphan);
            Declare(s, tunnels, labs, overlayMtu, env)
            == (s2.(cache := if env.cacheOk then Some(Cacheable(tunnels)) else s2.cache), Declared(results, orphans))
  {
  }

  /** The orphan phase, started from a state that is good for the declaration. */
  lemma OrphanPhase(s: Overlay, s1: Overlay, tunnels: seq<Tunnel>, labs: set<string>, overlayMtu: int, rc: string -> Rc)
    requires Valid(s1) && PhaseFrame(s, s1, tunnels, |tunnels|) && AllGood(s1, tunnels, overlayMtu)
    ensures var snapshot := ReadPorts(s.world, true, true, true).value;
            var orphans := Orphans(s1, snapshot, DeclaredNames(tunnels), DeclaredLabs(tunnels, labs));
            var s2 := RemovePorts(s1, orphans, rc);
            Valid(s2) && AllGood(s2, tunnels, overlayMtu) && !HasOrphan(s2, tunnels, labs)
  {
    var snapshot := ReadPorts(s.world, true, true, true).value;
    var orphans := Orphans(s1, snapshot, DeclaredNames(tunnels), DeclaredLabs(tunnels, labs));
    LivePortsAreDeclared(tunnels);
    RemovePortsFrame(s1, orphans, rc);
    RemovalKeepsGood(s1, tunnels, orphans, rc, overlayMtu);
    NoOrphanLeft(s, s1, tunnels, labs, rc);
  }

  /** Convergence.  With a complete reading and working commands every live tunnel has a healthy
      port with its tag and MTU and is tracked as declared, those created run between the declared
      endpoints, and no undeclared port in scope is left. */
  lemma DeclareConverges(s: Overlay, tunnels: seq<Tunnel>, labs: set<string>, overlayMtu: int, env: Env)
    requires Valid(s) && Proper(tunnels) && overlayMtu > 0 && AllCommandsOk(env)
    ensures var (s', r) := Declare(s, tunnels, labs, overlayMtu, env);
            && Valid(s') && AllGood(s', tunnels, overlayMtu) && !HasOrphan(s', tunnels, labs)
            && s'.cache == Some(Cacheable(tunnels))
            && r.Declared? && |r.results| == |tunnels|
            && (forall i :: 0 <= i < |tunnels| ==>
                  Reported(tunnels[i], r.results[i]) && CreatedAsDeclared(s', tunnels[i], r.results[i]))
  {
    var snapshot := ReadPorts(s.world, true, true, true).value;
    TunnelsConverge(s, snapshot, tunnels, overlayMtu, env.tunnel, |tunnels|);
    TunnelsFrame(s, snapshot, tunnels, overlayMtu, env.tunnel, |tunnels|);
    var s1 := DeclareTunnels(s, snapshot, tunnels, overlayMtu, env.tunnel, |tunnels|).0;
    OrphanPhase(s, s1, tunnels, labs, overlayMtu, env.orphan);
    DeclareUnfolded(s, snapshot, tunnels, labs, overlayMtu, env);
    var orphans := Orphans(s1, snapshot, DeclaredNames(tunnels), DeclaredLabs(tunnels, labs));
    CacheIsApart(RemovePorts(s1, orphans, env.orphan), Some(Cacheable(tunnels)), tunnels, labs, overlayMtu);
    RemovalKeepsCreated(s1, tunnels, DeclareTunnels(s, snapshot, tunnels, overlayMtu, env.tunnel, |tunnels|).1, orphans,
                        env.orphan);
  }

  lemma RemovalKeepsCreated(s: Overlay, tunnels: seq<Tunnel>, results: seq<TunnelResult>, ports: set<string>,
                            rc: string -> Rc)
    requires Valid(s) && |results| == |tunnels| && ports !! DeclaredNames(tunnels)
    requires forall i :: 0 <= i < |tunnels| ==> CreatedAsDeclared(s, tunnels[i], results[i])
    ensures forall i :: 0 <= i < |tunnels| ==> CreatedAsDeclared(RemovePorts(s, ports, rc), tunnels[i], results[i])
  {
    RemovePortsFrame(s, ports, rc);
    forall i | 0 <= i < |tunnels| ensures CreatedAsDeclared(RemovePorts(s, ports, rc), tunnels[i], results[i]) {
      assert tunnels[i].portName in DeclaredNames(tunnels);
      assert SameAt(s.world, RemovePorts(s, ports, rc).world, tunnels[i].portName);
    }
  }

  /** One tunnel that is already as declared causes no change and reads as converged. */
  lemma GoodTunnelIsStable(s: Overlay, snapshot: map<string, OvsPort>, t: Tunnel, overlayMtu: int, rc: Rc)
    requires Valid(s) && (!IsProtected(t) ==> Good(s, t, overlayMtu) && Reads(snapshot, s.world, t.portName))
    ensures DeclareTunnel(s, snapshot, t, overlayMtu, rc).0 == s
    ensures DeclareTunnel(s, snapshot, t, overlayMtu, rc).1.status == if IsProtected(t) then Protected else Converged
  {
    if !IsProtected(t) {
      assert s.tracking[t.linkId := Entry(t, overlayMtu)] == s.tracking;
    }
  }

  lemma {:induction false} GoodTunnelsAreStable(s: Overlay, snapshot: map<string, OvsPort>, tunnels: seq<Tunnel>,
                                                overlayMtu: int, rcs: nat -> Rc, k: nat)
    requires Valid(s) && AllGood(s, tunnels, overlayMtu) && k <= |tunnels|
    requires forall i :: 0 <= i < |tunnels| && !IsProtected(tunnels[i]) ==>
               Reads(snapshot, s.world, tunnels[i].portName)
    ensures var (s', results) := DeclareTunnels(s, snapshot, tunnels, overlayMtu, rcs, k);
            && s' == s
            && forall i :: 0 <= i < k ==> results[i].status == if IsProtected(tunnels[i]) then Protected else Converged
  {
    if k > 0 {
      GoodTunnelsAreStable(s, snapshot, tunnels, overlayMtu, rcs, k - 1);
      GoodTunnelIsStable(s, snapshot, tunnels[k - 1], overlayMtu, rcs(k - 1));
    }
  }

  lemma RemoveNothing(s: Overlay, rc: string -> Rc)
    ensures RemovePorts(s, {}, rc) == s
  {
    var s' := RemovePorts(s, {}, rc);
    WithoutNothing(s.order);
    assert LinksOver(s, {}) == {};
    assert s'.world.ports == s.world.ports && s'.world.devices == s.world.devices;
    assert s'.tracking == s.tracking;
  }

  /** The result of a call that found everything in place. */
  ghost predicate AllConverged(tunnels: seq<Tunnel>, r: DeclareResult) {
    && r.Declared? && |r.results| == |tunnels|
    && forall i :: 0 <= i < |tunnels| ==>
         r.results[i].status == if IsProtected(tunnels[i]) then Protected else Converged
  }

  /** On a state that is already as declared, the call reports every live tunnel converged and
      changes nothing but (perhaps) orphans, whatever later commands would return; it removes
      something exactly when an undeclared port in scope is on the bridge. */
  lemma DeclareOnGoodState(s: Overlay, tunnels: seq<Tunnel>, labs: set<string>, overlayMtu: int, env: Env)
    requires Valid(s) && Proper(tunnels) && AllGood(s, tunnels, overlayMtu)
    requires s.cache == Some(Cacheable(tunnels)) && ReadComplete(env)
    ensures var (s', r) := Declare(s, tunnels, labs, overlayMtu, env);
            && AllConverged(tunnels, r)
            && (r.orphansRemoved == {} <==> !HasOrphan(s, tunnels, labs))
            && (!HasOrphan(s, tunnels, labs) ==> s' == s)
  {
    var snapshot := ReadPorts(s.world, true, true, true).value;
    var names, scope := DeclaredNames(tunnels), DeclaredLabs(tunnels, labs);
    GoodTunnelsAreStable(s, snapshot, tunnels, overlayMtu, env.tunnel, |tunnels|);
    var orphans := Orphans(s, snapshot, names, scope);
    if HasOrphan(s, tunnels, labs) {
      var p :| p in s.world.ports && IsOrphan(s, names, scope, p);
      PrefixIsVxlan(p);
      assert p in orphans;
    } else {
      assert orphans == {};
      RemoveNothing(s, env.orphan);
    }
  }

  /** Idempotence: a second identical declaration changes nothing and removes nothing. */
  lemma DeclareIsIdempotent(s: Overlay, tunnels: seq<Tunnel>, labs: set<string>, overlayMtu: int, env: Env, env2: Env)
    requires Valid(s) && Proper(tunnels) && overlayMtu > 0 && AllCommandsOk(env) && ReadComplete(env2)
    ensures var s' := Declare(s, tunnels, labs, overlayMtu, env).0;
            var (s'', r) := Declare(s', tunnels, labs, overlayMtu, env2);
            s'' == s' && AllConverged(tunnels, r) && r.orphansRemoved == {}
  {
    DeclareConverges(s, tunnels, labs, overlayMtu, env);
    DeclareOnGoodState(Declare(s, tunnels, labs, overlayMtu, env).0, tunnels, labs, overlayMtu, env2);
  }
}
