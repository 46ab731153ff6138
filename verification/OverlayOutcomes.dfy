/** What declare_state does and reports, tunnel by tunnel, told from the state before the call. */
module OverlayOutcomes {
  import opened Wrappers
  import opened OverlayWorld
  import opened OverlayState
  import opened OverlayTheorems

  /** The port is there with the declared tag, on a device between the declared endpoints. */
  ghost predicate Built(w: World, t: Tunnel) {
    && HealthyAt(w, t.portName) && w.ports[t.portName].tag == (if t.expectedVlan > 0 then t.expectedVlan else 0)
    && HasEndpoints(w, t.portName, t.vni, t.localIp, t.remoteIp)
  }

  /** A reading fails only with the listing.  Otherwise it has every port called vxlan..., with its tag, and as
      healthy only if it is; but none at all after a failed Port query, and none healthy after a failed
      Interface query. */
  lemma ReadingTells(w: World, listOk: bool, tagsOk: bool, ifacesOk: bool, n: string)
    ensures var r := ReadPorts(w, listOk, tagsOk, ifacesOk);
            && (r == None <==> !listOk)
            && (listOk ==>
                  && (n in r.value <==> tagsOk && n in w.ports && "vxlan" <= n)
                  && (n in r.value ==>
                        r.value[n].tag == w.ports[n].tag && (r.value[n].healthy <==> ifacesOk && w.ports[n].healthy)))
  {
  }

  // ---- One tunnel, for every outcome of every command ----

  lemma MissingWorldOutcome(w: World, t: Tunnel, overlayMtu: int, rc: Rc)
    requires WellFormed(w)
    ensures var (w', ok) := MissingWorld(w, t, overlayMtu, rc);
            var n := t.portName;
            var deviceLeft := n in w.devices && !(rc.linkShow && rc.linkDelete);
            && (ok <==> n !in w.ports && (deviceLeft ==> rc.retryDelete) && rc.linkAdd && rc.addPort)
            && (ok ==> Built(w', t) && (rc.setMtu ==>
                  w'.devices[n].mtu == if t.mtu > 0 then t.mtu else if overlayMtu > 0 then overlayMtu else 1500))
            && (!ok ==> (n in w'.ports <==> n in w.ports))
  {
    var n := t.portName;
    var w1 := if rc.linkShow && n in w.devices then LinkDelete(w, n, rc.linkDelete) else w;
    CreateDeviceContract(w1, n, t.vni, t.localIp, t.remoteIp, TagOf(t.expectedVlan), DeviceMtu(t.mtu, overlayMtu),
                         overlayMtu, rc);
  }

  /** A port that was not read as healthy: the tunnel is created exactly when its name could be cleared and
      the device and port made, and is then built and tracked as declared; otherwise an error is reported,
      no new port is there, and the tracking table is as before. */
  lemma MissingOutcome(s: Overlay, snapshot: map<string, OvsPort>, t: Tunnel, overlayMtu: int, rc: Rc)
    requires Valid(s) && !IsProtected(t) && !(t.portName in snapshot && snapshot[t.portName].healthy)
    ensures var (s', r) := DeclareTunnel(s, snapshot, t, overlayMtu, rc);
            var n := t.portName;
            var portLeft := n in s.world.ports && !(n in snapshot && rc.delPort);
            var deviceLeft := n in s.world.devices && !(rc.linkShow && rc.linkDelete);
            && r.linkId == t.linkId && r.labId == t.labId && r.status in {Created, Error}
            && (r.status == Created <==> !portLeft && (deviceLeft ==> rc.retryDelete) && rc.linkAdd && rc.addPort)
            && (r.status == Created ==>
                  && r.actualVlan == t.expectedVlan && Built(s'.world, t)
                  && (rc.setMtu ==>
                        s'.world.devices[n].mtu
                        == if t.mtu > 0 then t.mtu else if overlayMtu > 0 then overlayMtu else 1500)
                  && t.linkId in s'.tracking && IsFor(s'.tracking[t.linkId], t.linkId, t))
            && (r.status == Error ==>
                  s'.tracking == s.tracking && s'.order == s.order && (n in s'.world.ports <==> portLeft))
  {
    var n := t.portName;
    MissingWorldOutcome(if n in snapshot then DelPort(s.world, n, rc.delPort) else s.world, t, overlayMtu, rc);
  }

  ghost predicate WrongTag(current: int, t: Tunnel) { t.expectedVlan > 0 && current != t.expectedVlan }

  ghost predicate WrongMtu(w: World, t: Tunnel) {
    t.mtu > 0 && t.portName in w.devices && w.devices[t.portName].mtu != t.mtu
  }

  /** The device of `n` in `w'` is that of `w`, but for the MTU. */
  ghost predicate SameEndpoints(w: World, w': World, n: string) {
    && (n in w.devices <==> n in w'.devices)
    && (n in w.devices ==> HasEndpoints(w', n, w.devices[n].vni, w.devices[n].localIp, w.devices[n].remoteIp))
  }

  /** A port that was read as healthy: only its tag and MTU are put right, as far as the commands work; it is
      reported as updated exactly when one of them was seen to be wrong; and it is tracked as declared. */
  lemma ExistingOutcome(s: Overlay, snapshot: map<string, OvsPort>, t: Tunnel, overlayMtu: int, rc: Rc)
    requires Valid(s) && !IsProtected(t) && t.portName in snapshot && snapshot[t.portName].healthy
    ensures var (s', r) := DeclareTunnel(s, snapshot, t, overlayMtu, rc);
            var n := t.portName;
            var retag := WrongTag(snapshot[n].tag, t);
            var resize := rc.linkShow && WrongMtu(s.world, t);
            && r.linkId == t.linkId && r.labId == t.labId
            && r.status == (if retag || resize then Updated else Converged)
            && r.actualVlan == (if r.status == Updated then t.expectedVlan else snapshot[n].tag)
            && s'.world.ports.Keys == s.world.ports.Keys && SameEndpoints(s.world, s'.world, n)
            && (n in s.world.ports ==>
                  s'.world.ports[n]
                  == OvsPort(if retag && rc.setTag then t.expectedVlan else s.world.ports[n].tag,
                             s.world.ports[n].healthy))
            && (n in s.world.devices ==>
                  s'.world.devices[n].mtu == if resize && rc.setMtu then t.mtu else s.world.devices[n].mtu)
            && t.linkId in s'.tracking && TrackedAs(s'.tracking[t.linkId], t, overlayMtu)
  {
  }

  /** Removing ports, for every outcome: each of them stays on the bridge, or in the kernel, exactly when the
      command for it failed, and unhealthy when only the device is gone; the links over them are forgotten
      anyway. */
  lemma RemovalOutcome(s: Overlay, ports: set<string>, rc: string -> Rc, p: string)
    requires p in ports
    ensures var s' := RemovePorts(s, ports, rc);
            && (p in s'.world.ports <==> p in s.world.ports && !rc(p).delPort)
            && (p in s'.world.devices <==> p in s.world.devices && !rc(p).linkDelete)
            && (p in s'.world.ports ==>
                  && s'.world.ports[p].tag == s.world.ports[p].tag
                  && (s'.world.ports[p].healthy <==>
                        s.world.ports[p].healthy && (p in s.world.devices ==> p in s'.world.devices)))
            && (p in s'.world.devices ==> s'.world.devices[p] == s.world.devices[p])
            && (forall k :: k in s'.tracking <==> k in s.tracking && s.tracking[k].interfaceName !in ports)
  {
  }

  // ---- The whole call, with working commands ----

  /** What the call does with one tunnel, `w` being the world before it: without an address, or a VNI, or as
      a placeholder it is left alone; a port that is not healthy is built; of a healthy one tag and MTU are
      put right. */
  ghost predicate Outcome(w: World, w': World, t: Tunnel, overlayMtu: int, r: TunnelResult) {
    var n := t.portName;
    && r.linkId == t.linkId && r.labId == t.labId
    && if t.placeholder || t.localIp == "" || t.remoteIp == "" || t.vni == 0 then
         r.status == Protected && r.actualVlan == 0
       else if !HealthyAt(w, n) then
         && r.status == Created && r.actualVlan == t.expectedVlan && Built(w', t)
         && w'.devices[n].mtu == if t.mtu > 0 then t.mtu else if overlayMtu > 0 then overlayMtu else 1500
       else
         && HealthyAt(w', n) && SameEndpoints(w, w', n)
         && w'.ports[n].tag == (if t.expectedVlan > 0 then t.expectedVlan else w.ports[n].tag)
         && (n in w.devices ==> w'.devices[n].mtu == if t.mtu > 0 then t.mtu else w.devices[n].mtu)
         && r.status == (if WrongTag(w.ports[n].tag, t) || WrongMtu(w, t) then Updated else Converged)
         && r.actualVlan == (if r.status == Updated then t.expectedVlan else w.ports[n].tag)
  }

  lemma TunnelOutcome(s: Overlay, s1: Overlay, snapshot: map<string, OvsPort>, t: Tunnel, overlayMtu: int, rc: Rc)
    requires Valid(s1) && AllOk(rc)
    requires !IsProtected(t) ==> SameAt(s.world, s1.world, t.portName) && Reads(snapshot, s.world, t.portName)
    ensures var (s2, r) := DeclareTunnel(s1, snapshot, t, overlayMtu, rc); Outcome(s.world, s2.world, t, overlayMtu, r)
  {
    if !IsProtected(t) {
      if HealthyAt(s.world, t.portName) {
        ExistingOutcome(s1, snapshot, t, overlayMtu, rc);
      } else {
        MissingOutcome(s1, snapshot, t, overlayMtu, rc);
      }
    }
  }

  ghost predicate Outcomes(w: World, w': World, tunnels: seq<Tunnel>, overlayMtu: int, results: seq<TunnelResult>,
                           k: nat)
    requires k <= |tunnels| && k <= |results|
  {
    forall i :: 0 <= i < k ==> Outcome(w, w', tunnels[i], overlayMtu, results[i])
  }

  lemma OutcomeIsKept(w: World, w1: World, w2: World, t: Tunnel, overlayMtu: int, r: TunnelResult)
    requires Outcome(w, w1, t, overlayMtu, r) && (IsProtected(t) || SameAt(w1, w2, t.portName))
    ensures Outcome(w, w2, t, overlayMtu, r)
  {
  }

  lemma OutcomesOneMore(w: World, s1: Overlay, s2: Overlay, tunnels: seq<Tunnel>, overlayMtu: int,
                        results: seq<TunnelResult>, r: TunnelResult, k: nat)
    requires 0 < k <= |tunnels| && |results| == k - 1 && Proper(tunnels)
    requires Outcomes(w, s1.world, tunnels, overlayMtu, results, k - 1)
    requires Outcome(w, s2.world, tunnels[k - 1], overlayMtu, r)
    requires OnlyTouches(s1, s2, tunnels[k - 1]) && (IsProtected(tunnels[k - 1]) ==> s2 == s1)
    ensures Outcomes(w, s2.world, tunnels, overlayMtu, results + [r], k)
  {
    forall i | 0 <= i < k - 1 ensures Outcome(w, s2.world, tunnels[i], overlayMtu, results[i]) {
      OutcomeIsKept(w, s1.world, s2.world, tunnels[i], overlayMtu, results[i]);
    }
  }

  lemma {:induction false} TunnelOutcomes(s: Overlay, snapshot: map<string, OvsPort>, tunnels: seq<Tunnel>,
                                          overlayMtu: int, rcs: nat -> Rc, k: nat)
    requires Valid(s) && Proper(tunnels) && k <= |tunnels| && (forall i: nat :: AllOk(rcs(i)))
    requires forall n :: VxlanName(n) ==> Reads(snapshot, s.world, n)
    ensures var (s', results) := DeclareTunnels(s, snapshot, tunnels, overlayMtu, rcs, k);
            Outcomes(s.world, s'.world, tunnels, overlayMtu, results, k)
  {
    if k > 0 {
      TunnelOutcomes(s, snapshot, tunnels, overlayMtu, rcs, k - 1);
      TunnelsFrame(s, snapshot, tunnels, overlayMtu, rcs, k - 1);
      var (s1, results) := DeclareTunnels(s, snapshot, tunnels, overlayMtu, rcs, k - 1);
      var t := tunnels[k - 1];
      if !IsProtected(t) { assert t.portName !in LivePorts(tunnels, k - 1); }
      TunnelOutcome(s, s1, snapshot, t, overlayMtu, rcs(k - 1));
      TunnelFrame(s1, snapshot, t, overlayMtu, rcs(k - 1));
      var (s2, r) := DeclareTunnel(s1, snapshot, t, overlayMtu, rcs(k - 1));
      OutcomesOneMore(s.world, s1, s2, tunnels, overlayMtu, results, r, k);
    }
  }

  lemma RemovalKeepsOutcomes(w: World, s: Overlay, tunnels: seq<Tunnel>, overlayMtu: int,
                             results: seq<TunnelResult>, ports: set<string>, rc: string -> Rc)
    requires Valid(s) && |results| == |tunnels| && Outcomes(w, s.world, tunnels, overlayMtu, results, |tunnels|)
    requires ports !! DeclaredNames(tunnels)
    ensures Outcomes(w, RemovePorts(s, ports, rc).world, tunnels, overlayMtu, results, |tunnels|)
  {
    RemovePortsFrame(s, ports, rc);
    var s' := RemovePorts(s, ports, rc);
    forall i | 0 <= i < |tunnels| ensures Outcome(w, s'.world, tunnels[i], overlayMtu, results[i]) {
      assert tunnels[i].portName in DeclaredNames(tunnels);
      OutcomeIsKept(w, s.world, s'.world, tunnels[i], overlayMtu, results[i]);
    }
  }

  /** The call as a whole.  A live tunnel whose port was missing or unhealthy is built with the declared tag
      and between the declared endpoints, and reported as created; any other keeps the endpoints it had, gets the
      declared tag and MTU, and is reported as updated exactly when one of them was wrong. */
  lemma DeclareOutcomes(s: Overlay, tunnels: seq<Tunnel>, labs: set<string>, overlayMtu: int, env: Env)
    requires Valid(s) && Proper(tunnels) && AllCommandsOk(env)
    ensures var (s', r) := Declare(s, tunnels, labs, overlayMtu, env);
            r.Declared? && |r.results| == |tunnels|
            && Outcomes(s.world, s'.world, tunnels, overlayMtu, r.results, |tunnels|)
  {
    var snapshot := ReadPorts(s.world, true, true, true).value;
    TunnelOutcomes(s, snapshot, tunnels, overlayMtu, env.tunnel, |tunnels|);
    TunnelsFrame(s, snapshot, tunnels, overlayMtu, env.tunnel, |tunnels|);
    var (s1, results) := DeclareTunnels(s, snapshot, tunnels, overlayMtu, env.tunnel, |tunnels|);
    var orphans := Orphans(s1, snapshot, DeclaredNames(tunnels), DeclaredLabs(tunnels, labs));
    RemovalKeepsOutcomes(s.world, s1, tunnels, overlayMtu, results, orphans, env.orphan);
    DeclareUnfolded(s, snapshot, tunnels, labs, overlayMtu, env);
  }

  /** VNI and addresses are not compared: afterwards a live tunnel runs between the declared endpoints exactly
      when its port had to be made, or its device had them before. */
  lemma EndpointsDeclaredIff(s: Overlay, tunnels: seq<Tunnel>, labs: set<string>, overlayMtu: int, env: Env, i: nat)
    requires Valid(s) && Proper(tunnels) && AllCommandsOk(env) && i < |tunnels| && !IsProtected(tunnels[i])
    ensures var t := tunnels[i];
            HasEndpoints(Declare(s, tunnels, labs, overlayMtu, env).0.world, t.portName, t.vni, t.localIp, t.remoteIp)
            <==> !HealthyAt(s.world, t.portName) || HasEndpoints(s.world, t.portName, t.vni, t.localIp, t.remoteIp)
  {
    DeclareOutcomes(s, tunnels, labs, overlayMtu, env);
    var (s', r) := Declare(s, tunnels, labs, overlayMtu, env);
    assert Outcome(s.world, s'.world, tunnels[i], overlayMtu, r.results[i]);
  }
}
