/** The periodic health pass of agent/network/overlay_health.py, and self-healing. */
module OverlayHealth {
  import opened Wrappers
  import opened OverlayWorld
  import opened OverlayState
  import opened OverlayTheorems
  import opened OverlaySafety

  datatype HealthResult = SkippedCheck | Checked(checked: nat, repaired: nat)

  /** One tracked link: nothing to do when its port was read as healthy, otherwise drop a stale
      port and build the device anew from the tracking entry. */
  function RepairLink(s: Overlay, snapshot: map<string, OvsPort>, k: string, overlayMtu: int, rc: Rc): (Overlay, bool)
    requires k in s.tracking
  {
    var lt := s.tracking[k];
    var n := lt.interfaceName;
    if n in snapshot && snapshot[n].healthy then (s, false)
    else
      var w := if n in snapshot then DelPort(s.world, n, rc.delPort) else s.world;
      var (w', ok) := CreateDevice(w, n, lt.vni, lt.localIp, lt.remoteIp, TagOf(lt.localVlan), lt.tenantMtu,
                                  overlayMtu, rc);
      (s.(world := w'), ok)
  }

  /** The state, and the number of repairs, after the first `k` tracked links. */
  function RepairLinks(s: Overlay, snapshot: map<string, OvsPort>, overlayMtu: int, rcs: nat -> Rc,
                       k: nat): (r: (Overlay, nat))
    requires k <= |s.order| && forall i :: 0 <= i < k ==> s.order[i] in s.tracking
    ensures r.0 == s.(world := r.0.world) && r.1 <= k
  {
    if k == 0 then (s, 0)
    else
      var (s1, repaired) := RepairLinks(s, snapshot, overlayMtu, rcs, k - 1);
      var (s2, ok) := RepairLink(s1, snapshot, s.order[k - 1], overlayMtu, rcs(k - 1));
      (s2, if ok then repaired + 1 else repaired)
  }

  /** check_and_repair, one whole pass. */
  function CheckAndRepair(s: Overlay, overlayMtu: int, env: Env): (Overlay, HealthResult)
    requires forall i :: 0 <= i < |s.order| ==> s.order[i] in s.tracking
  {
    if |s.tracking| == 0 then (s, Checked(0, 0))
    else match ReadPorts(s.world, env.listOk, env.tagsOk, env.ifacesOk)
      case None => (s, SkippedCheck)
      case Some(snapshot) =>
        var (s', repaired) := RepairLinks(s, snapshot, overlayMtu, env.tunnel, |s.order|);
        (s', Checked(|s.order|, repaired))
  }

  // ---- Safety for every outcome ----

  /** The ports a pass may touch: those of the first `k` tracked links that read as bad. */
  ghost function Suspects(s: Overlay, snapshot: map<string, OvsPort>, k: nat): set<string>
    requires WellOrdered(s) && k <= |s.order|
  {
    set i | 0 <= i < k && var n := s.tracking[s.order[i]].interfaceName; !(n in snapshot && snapshot[n].healthy)
      :: s.tracking[s.order[i]].interfaceName
  }

  lemma RepairLinkFrame(s: Overlay, snapshot: map<string, OvsPort>, k: string, overlayMtu: int, rc: Rc)
    requires Valid(s) && k in s.tracking
    ensures var s' := RepairLink(s, snapshot, k, overlayMtu, rc).0;
            && s' == s.(world := s'.world) && WellFormed(s'.world)
            && SameExcept(s.world, s'.world, s.tracking[k].interfaceName)
  {
    var lt := s.tracking[k];
    var n := lt.interfaceName;
    if !(n in snapshot && snapshot[n].healthy) {
      var w := if n in snapshot then DelPort(s.world, n, rc.delPort) else s.world;
      CreateDeviceContract(w, n, lt.vni, lt.localIp, lt.remoteIp, TagOf(lt.localVlan), lt.tenantMtu, overlayMtu, rc);
      SameExceptTransitive(s.world, w, RepairLink(s, snapshot, k, overlayMtu, rc).0.world, n);
    }
  }

  /** Whatever the commands do, a pass leaves the tracking table and every port alone that is
      untracked or read as healthy. */
  lemma {:induction false} RepairFrame(s: Overlay, snapshot: map<string, OvsPort>, overlayMtu: int, rcs: nat -> Rc,
                                       k: nat)
    requires Valid(s) && k <= |s.order|
    ensures var s' := RepairLinks(s, snapshot, overlayMtu, rcs, k).0;
            WellFormed(s'.world) && forall n :: n !in Suspects(s, snapshot, k) ==> SameAt(s.world, s'.world, n)
  {
    if k > 0 {
      RepairFrame(s, snapshot, overlayMtu, rcs, k - 1);
      var s1 := RepairLinks(s, snapshot, overlayMtu, rcs, k - 1).0;
      var link := s.order[k - 1];
      RepairLinkFrame(s1, snapshot, link, overlayMtu, rcs(k - 1));
      var s2 := RepairLink(s1, snapshot, link, overlayMtu, rcs(k - 1)).0;
      forall n | n !in Suspects(s, snapshot, k) ensures SameAt(s.world, s2.world, n) {
        assert n !in Suspects(s, snapshot, k - 1);
        assert SameAt(s.world, s1.world, n);
        assert n == s.tracking[link].interfaceName ==> s2 == s1;
        assert SameAt(s1.world, s2.world, n);
      }
    }
  }

  // ---- Self-healing ----

  /** The port of tracking entry `lt` is up as that entry says. */
  ghost predicate Up(w: World, lt: LinkTunnel, overlayMtu: int) {
    var n := lt.interfaceName;
    && n in w.ports && n in w.devices && w.ports[n] == OvsPort(TagOf(lt.localVlan), true)
    && w.devices[n].mtu == DeviceMtu(lt.tenantMtu, overlayMtu)
    && HasEndpoints(w, n, lt.vni, lt.localIp, lt.remoteIp)
  }

  lemma RepairedLinkIsUp(s: Overlay, snapshot: map<string, OvsPort>, k: string, overlayMtu: int, rc: Rc)
    requires Valid(s) && k in s.tracking && AllOk(rc)
    requires var n := s.tracking[k].interfaceName;
             (n in snapshot <==> n in s.world.ports) && (n in snapshot ==> !snapshot[n].healthy)
    ensures var (s', ok) := RepairLink(s, snapshot, k, overlayMtu, rc); ok && Up(s'.world, s.tracking[k], overlayMtu)
  {
    var lt := s.tracking[k];
    var w := DelPort(s.world, lt.interfaceName, true);
    assert lt.interfaceName !in s.world.ports ==> w.ports == s.world.ports;
    CreateDeviceContract(w, lt.interfaceName, lt.vni, lt.localIp, lt.remoteIp, TagOf(lt.localVlan), lt.tenantMtu,
                         overlayMtu, rc);
  }

  /** A port read as healthy is as it was; any other is up as tracked. */
  ghost predicate Mended(s: Overlay, w': World, snapshot: map<string, OvsPort>, lt: LinkTunnel, overlayMtu: int) {
    if lt.interfaceName in snapshot && snapshot[lt.interfaceName].healthy
    then SameAt(s.world, w', lt.interfaceName) else Up(w', lt, overlayMtu)
  }

  lemma MendedIsKept(s: Overlay, w': World, w'': World, snapshot: map<string, OvsPort>, lt: LinkTunnel, overlayMtu: int)
    requires Mended(s, w', snapshot, lt, overlayMtu) && SameAt(w', w'', lt.interfaceName)
    ensures Mended(s, w'', snapshot, lt, overlayMtu)
  {
  }

  lemma LinkIsMended(s: Overlay, s1: Overlay, snapshot: map<string, OvsPort>, link: string, overlayMtu: int, rc: Rc)
    requires Valid(s1) && link in s1.tracking && AllOk(rc) && s1 == s.(world := s1.world)
    requires var n := s1.tracking[link].interfaceName; Reads(snapshot, s.world, n) && SameAt(s.world, s1.world, n)
    ensures Mended(s, RepairLink(s1, snapshot, link, overlayMtu, rc).0.world, snapshot, s.tracking[link], overlayMtu)
  {
    var n := s1.tracking[link].interfaceName;
    if !(n in snapshot && snapshot[n].healthy) {
      RepairedLinkIsUp(s1, snapshot, link, overlayMtu, rc);
    }
  }

  ghost predicate AllMended(s: Overlay, w': World, snapshot: map<string, OvsPort>, overlayMtu: int, k: nat)
    requires WellOrdered(s) && k <= |s.order|
  {
    forall i :: 0 <= i < k ==> Mended(s, w', snapshot, s.tracking[s.order[i]], overlayMtu)
  }

  /** After `k` repairs: those links are mended, and the others are as they were. */
  ghost predicate MendedUpTo(s: Overlay, s': Overlay, snapshot: map<string, OvsPort>, overlayMtu: int, k: nat)
    requires WellOrdered(s) && k <= |s.order|
  {
    && Valid(s') && s' == s.(world := s'.world) && AllMended(s, s'.world, snapshot, overlayMtu, k)
    && forall i :: k <= i < |s.order| ==> SameAt(s.world, s'.world, s.tracking[s.order[i]].interfaceName)
  }

  /** One more repair mends its own link and keeps the others. */
  lemma MendOneMore(s: Overlay, s1: Overlay, snapshot: map<string, OvsPort>, overlayMtu: int, rc: Rc, k: nat)
    requires Valid(s) && DistinctInterfaces(s) && k < |s.order| && AllOk(rc)
    requires MendedUpTo(s, s1, snapshot, overlayMtu, k)
    requires Reads(snapshot, s.world, s.tracking[s.order[k]].interfaceName)
    ensures MendedUpTo(s, RepairLink(s1, snapshot, s.order[k], overlayMtu, rc).0, snapshot, overlayMtu, k + 1)
  {
    var s2 := RepairLink(s1, snapshot, s.order[k], overlayMtu, rc).0;
    RepairLinkFrame(s1, snapshot, s.order[k], overlayMtu, rc);
    LinkIsMended(s, s1, snapshot, s.order[k], overlayMtu, rc);
    MendedKeepsOthers(s, s1, s2, snapshot, overlayMtu, k);
  }

  lemma MendedKeepsOthers(s: Overlay, s1: Overlay, s2: Overlay, snapshot: map<string, OvsPort>, overlayMtu: int, k: nat)
    requires Valid(s) && DistinctInterfaces(s) && k < |s.order| && MendedUpTo(s, s1, snapshot, overlayMtu, k)
    requires s2 == s1.(world := s2.world) && WellFormed(s2.world)
    requires SameExcept(s1.world, s2.world, s.tracking[s.order[k]].interfaceName)
    requires Mended(s, s2.world, snapshot, s.tracking[s.order[k]], overlayMtu)
    ensures MendedUpTo(s, s2, snapshot, overlayMtu, k + 1)
  {
    forall i | 0 <= i < |s.order| && i != k ensures SameAt(s1.world, s2.world, s.tracking[s.order[i]].interfaceName) {
      assert s.order[i] in s.tracking && s.order[i] != s.order[k];
    }
    forall i | 0 <= i < k ensures Mended(s, s2.world, snapshot, s.tracking[s.order[i]], overlayMtu) {
      MendedIsKept(s, s1.world, s2.world, snapshot, s.tracking[s.order[i]], overlayMtu);
    }
  }

  ghost predicate KeptByRepair(s: Overlay, snapshot: map<string, OvsPort>, overlayMtu: int, rcs: nat -> Rc,
                               p: (Overlay, nat) -> bool, i: nat)
    requires WellOrdered(s) && i < |s.order|
  {
    forall t: Overlay :: t == s.(world := t.world) && p(t, i) ==>
      p(RepairLink(t, snapshot, s.order[i], overlayMtu, rcs(i)).0, i + 1)
  }

  /** Induction over the repairs. */
  lemma {:induction false} RepairsKeep(s: Overlay, snapshot: map<string, OvsPort>, overlayMtu: int, rcs: nat -> Rc,
                                       k: nat, p: (Overlay, nat) -> bool)
    requires WellOrdered(s) && k <= |s.order| && p(s, 0)
    requires forall i :: 0 <= i < |s.order| ==> KeptByRepair(s, snapshot, overlayMtu, rcs, p, i)
    ensures p(RepairLinks(s, snapshot, overlayMtu, rcs, k).0, k)
  {
    if k > 0 {
      RepairsKeep(s, snapshot, overlayMtu, rcs, k - 1, p);
      assert KeptByRepair(s, snapshot, overlayMtu, rcs, p, k - 1);
    }
  }

  /** With working commands and unshared interfaces, every link whose port read as bad is up
      after its turn. */
  lemma RepairsComplete(s: Overlay, snapshot: map<string, OvsPort>, overlayMtu: int, rcs: nat -> Rc, k: nat)
    requires Valid(s) && DistinctInterfaces(s) && k <= |s.order|
    requires forall i: nat :: AllOk(rcs(i))
    requires forall l :: l in s.tracking ==> Reads(snapshot, s.world, s.tracking[l].interfaceName)
    ensures MendedUpTo(s, RepairLinks(s, snapshot, overlayMtu, rcs, k).0, snapshot, overlayMtu, k)
  {
    var p := (t: Overlay, i: nat) => i <= |s.order| && MendedUpTo(s, t, snapshot, overlayMtu, i);
    forall i | 0 <= i < |s.order| ensures KeptByRepair(s, snapshot, overlayMtu, rcs, p, i) {
      forall t: Overlay | t == s.(world := t.world) && p(t, i)
        ensures p(RepairLink(t, snapshot, s.order[i], overlayMtu, rcs(i)).0, i + 1)
      {
        MendOneMore(s, t, snapshot, overlayMtu, rcs(i), i);
      }
    }
    RepairsKeep(s, snapshot, overlayMtu, rcs, k, p);
  }

  /** Faults: each port and device is as before, or its port is lost or has ofport -1. */
  ghost predicate Faulted(w: World, w': World) {
    WellFormed(w') && forall n :: SameAt(w, w', n) || n !in w'.ports || !w'.ports[n].healthy
  }

  /** What one pass with working commands leaves of the links. */
  lemma PassMends(s: Overlay, overlayMtu: int, env: Env)
    requires Valid(s) && DistinctInterfaces(s) && AllCommandsOk(env)
    requires forall k :: k in s.tracking ==> VxlanName(s.tracking[k].interfaceName)
    ensures var s' := CheckAndRepair(s, overlayMtu, env).0;
            && Valid(s') && s' == s.(world := s'.world)
            && AllMended(s, s'.world, ReadPorts(s.world, true, true, true).value, overlayMtu, |s.order|)
  {
    var snapshot := ReadPorts(s.world, true, true, true).value;
    if |s.tracking| > 0 {
      RepairsComplete(s, snapshot, overlayMtu, env.tunnel, |s.order|);
    } else {
      EmptyTogether(s);
    }
  }

  /** How many of the first `k` tracked links have no healthy port. */
  function BadLinks(s: Overlay, k: nat): nat
    requires k <= |s.order| && forall i :: 0 <= i < k ==> s.order[i] in s.tracking
  {
    if k == 0 then 0
    else
      var n := s.tracking[s.order[k - 1]].interfaceName;
      BadLinks(s, k - 1) + if n in s.world.ports && s.world.ports[n].healthy then 0 else 1
  }

  lemma RepairCountsIfBad(s: Overlay, s1: Overlay, snapshot: map<string, OvsPort>, overlayMtu: int, rc: Rc, k: nat)
    requires Valid(s) && k < |s.order| && AllOk(rc) && MendedUpTo(s, s1, snapshot, overlayMtu, k)
    requires Reads(snapshot, s.world, s.tracking[s.order[k]].interfaceName)
    ensures RepairLink(s1, snapshot, s.order[k], overlayMtu, rc).1
       <==> !HealthyAt(s.world, s.tracking[s.order[k]].interfaceName)
  {
    if !HealthyAt(s.world, s.tracking[s.order[k]].interfaceName) {
      RepairedLinkIsUp(s1, snapshot, s.order[k], overlayMtu, rc);
    }
  }

  ghost predicate Counted(s: Overlay, snapshot: map<string, OvsPort>, overlayMtu: int, rcs: nat -> Rc, k: nat)
    requires WellOrdered(s) && k <= |s.order|
  {
    RepairLinks(s, snapshot, overlayMtu, rcs, k).1 == BadLinks(s, k)
  }

  ghost predicate AllRead(s: Overlay, snapshot: map<string, OvsPort>) {
    forall l :: l in s.tracking ==> Reads(snapshot, s.world, s.tracking[l].interfaceName)
  }

  lemma CountsOneMore(s: Overlay, snapshot: map<string, OvsPort>, overlayMtu: int, rcs: nat -> Rc, k: nat)
    requires Valid(s) && DistinctInterfaces(s) && k < |s.order| && AllRead(s, snapshot)
    requires (forall i: nat :: AllOk(rcs(i))) && Counted(s, snapshot, overlayMtu, rcs, k)
    ensures Counted(s, snapshot, overlayMtu, rcs, k + 1)
  {
    RepairsComplete(s, snapshot, overlayMtu, rcs, k);
    RepairCountsIfBad(s, RepairLinks(s, snapshot, overlayMtu, rcs, k).0, snapshot, overlayMtu, rcs(k), k);
    RepairLinksOneMore(s, snapshot, overlayMtu, rcs, k);
  }

  lemma RepairLinksOneMore(s: Overlay, snapshot: map<string, OvsPort>, overlayMtu: int, rcs: nat -> Rc, k: nat)
    requires WellOrdered(s) && k < |s.order|
    ensures var (s1, repaired) := RepairLinks(s, snapshot, overlayMtu, rcs, k);
            RepairLinks(s, snapshot, overlayMtu, rcs, k + 1).1
            == repaired + if RepairLink(s1, snapshot, s.order[k], overlayMtu, rcs(k)).1 then 1 else 0
  {
  }

  lemma {:induction false} RepairsAreCounted(s: Overlay, snapshot: map<string, OvsPort>, overlayMtu: int,
                                             rcs: nat -> Rc, k: nat)
    requires Valid(s) && DistinctInterfaces(s) && k <= |s.order| && AllRead(s, snapshot)
    requires forall i: nat :: AllOk(rcs(i))
    ensures Counted(s, snapshot, overlayMtu, rcs, k)
  {
    if k > 0 {
      RepairsAreCounted(s, snapshot, overlayMtu, rcs, k - 1);
      CountsOneMore(s, snapshot, overlayMtu, rcs, k - 1);
    }
  }

  /** A whole pass with working commands, told from the state before it: every tracked link without a healthy
      port gets one, with the tracked tag, on a device with the tracked VNI, addresses and MTU; every other is
      left alone; all are checked, and just the bad ones counted as repaired. */
  lemma PassRebuildsBadLinks(s: Overlay, overlayMtu: int, env: Env)
    requires Valid(s) && DistinctInterfaces(s) && AllCommandsOk(env)
    requires forall k :: k in s.tracking ==> VxlanName(s.tracking[k].interfaceName)
    ensures var (s', r) := CheckAndRepair(s, overlayMtu, env);
            && s'.tracking == s.tracking && r == Checked(|s.order|, BadLinks(s, |s.order|))
            && forall k :: k in s.tracking ==>
                 var lt := s.tracking[k];
                 if HealthyAt(s.world, lt.interfaceName) then SameAt(s.world, s'.world, lt.interfaceName)
                 else
                   && HealthyAt(s'.world, lt.interfaceName)
                   && s'.world.ports[lt.interfaceName].tag == (if lt.localVlan > 0 then lt.localVlan else 0)
                   && HasEndpoints(s'.world, lt.interfaceName, lt.vni, lt.localIp, lt.remoteIp)
                   && (lt.tenantMtu > 0 ==> s'.world.devices[lt.interfaceName].mtu == lt.tenantMtu)
  {
    PassMends(s, overlayMtu, env);
    var snapshot := ReadPorts(s.world, true, true, true).value;
    var s' := CheckAndRepair(s, overlayMtu, env).0;
    if |s.tracking| > 0 {
      RepairsAreCounted(s, snapshot, overlayMtu, env.tunnel, |s.order|);
    } else {
      EmptyTogether(s);
    }
    forall k | k in s.tracking ensures Mended(s, s'.world, snapshot, s.tracking[k], overlayMtu) {
      var i :| 0 <= i < |s.order| && s.order[i] == k;
    }
  }

  lemma MendedIsLive(s: Overlay, w': World, w'': World, k: string, overlayMtu: int)
    requires k in s.tracking && VxlanName(s.tracking[k].interfaceName) && Faulted(s.world, w')
    requires Mended(s.(world := w'), w'', ReadPorts(w', true, true, true).value, s.tracking[k], overlayMtu)
    ensures s.tracking[k].interfaceName in w''.ports
    ensures Up(w'', s.tracking[k], overlayMtu) || SameAt(s.world, w'', s.tracking[k].interfaceName)
  {
  }

  /** One pass brings every live tunnel back: each tracked port is as it was before the faults, or built
      anew with the tag, MTU, VNI and addresses that are tracked for it. */
  lemma RepairRestoresGood(s: Overlay, w': World, tunnels: seq<Tunnel>, overlayMtu: int, env: Env)
    requires Valid(s) && Proper(tunnels) && DistinctInterfaces(s) && overlayMtu > 0
    requires AllGood(s, tunnels, overlayMtu) && Faulted(s.world, w') && AllCommandsOk(env)
    requires forall k :: k in s.tracking ==> VxlanName(s.tracking[k].interfaceName)
    ensures var s' := CheckAndRepair(s.(world := w'), overlayMtu, env).0;
            && Valid(s') && s' == s.(world := s'.world) && AllGood(s', tunnels, overlayMtu)
            && (forall k :: k in s.tracking ==>
                  && s.tracking[k].interfaceName in s'.world.ports
                  && (Up(s'.world, s.tracking[k], overlayMtu)
                      || SameAt(s.world, s'.world, s.tracking[k].interfaceName)))
  {
    var s1 := s.(world := w');
    PassMends(s1, overlayMtu, env);
    var s' := CheckAndRepair(s1, overlayMtu, env).0;
    forall k | k in s.tracking
      ensures s.tracking[k].interfaceName in s'.world.ports
      ensures Up(s'.world, s.tracking[k], overlayMtu) || SameAt(s.world, s'.world, s.tracking[k].interfaceName)
    {
      var i :| 0 <= i < |s.order| && s.order[i] == k;
      MendedIsLive(s, w', s'.world, k, overlayMtu);
    }
    forall j | 0 <= j < |tunnels| && !IsProtected(tunnels[j]) ensures Good(s', tunnels[j], overlayMtu) {
      assert Good(s, tunnels[j], overlayMtu);
    }
  }

  /** A tracked link of a lab in scope over an undeclared vxlan- port. */
  ghost predicate HasStray(s: Overlay, tunnels: seq<Tunnel>, labs: set<string>) {
    exists k :: k in s.tracking && IsStray(s.tracking[k], tunnels, labs)
  }

  predicate IsStray(lt: LinkTunnel, tunnels: seq<Tunnel>, labs: set<string>) {
    lt.interfaceName !in DeclaredNames(tunnels) && "vxlan-" <= lt.interfaceName
    && lt.labId in DeclaredLabs(tunnels, labs)
  }

  lemma OwnerOfDistinct(s: Overlay, k: string)
    requires Valid(s) && DistinctInterfaces(s) && k in s.tracking
    ensures FirstOwner(s.tracking, s.order, s.tracking[k].interfaceName) == Some(s.tracking[k])
  {
    OwnerIsTracked(s.tracking, s.order, s.tracking[k].interfaceName);
  }

  /** When every tracked port is on the bridge, orphans and strays are the same thing. */
  lemma OrphanIffStray(s: Overlay, tunnels: seq<Tunnel>, labs: set<string>)
    requires Valid(s) && DistinctInterfaces(s)
    requires forall k :: k in s.tracking ==> s.tracking[k].interfaceName in s.world.ports
    ensures HasOrphan(s, tunnels, labs) <==> HasStray(s, tunnels, labs)
  {
    var names, scope := DeclaredNames(tunnels), DeclaredLabs(tunnels, labs);
    if HasStray(s, tunnels, labs) {
      var k :| k in s.tracking && IsStray(s.tracking[k], tunnels, labs);
      OwnerOfDistinct(s, k);
      assert IsOrphan(s, names, scope, s.tracking[k].interfaceName);
    }
    if HasOrphan(s, tunnels, labs) {
      var p :| p in s.world.ports && IsOrphan(s, names, scope, p);
      OwnerIsTracked(s.tracking, s.order, p);
    }
  }

  /** Self-healing.  After any faults and one pass with working commands, declaring the same
      tunnels again finds all of them converged.  It changes and removes nothing exactly when no
      undeclared link in scope is tracked; otherwise the pass has brought such a link's port back
      to life although nobody declares it, and the next call removes it. */
  lemma SelfHealing(s: Overlay, w': World, tunnels: seq<Tunnel>, labs: set<string>, overlayMtu: int, env: Env,
                    env2: Env)
    requires Valid(s) && Proper(tunnels) && DistinctInterfaces(s) && overlayMtu > 0
    requires AllGood(s, tunnels, overlayMtu) && s.cache == Some(Cacheable(tunnels))
    requires Faulted(s.world, w') && AllCommandsOk(env) && ReadComplete(env2)
    requires forall k :: k in s.tracking ==> VxlanName(s.tracking[k].interfaceName)
    ensures var healed := CheckAndRepair(s.(world := w'), overlayMtu, env).0;
            var (again, r) := Declare(healed, tunnels, labs, overlayMtu, env2);
            && AllConverged(tunnels, r)
            && (r.orphansRemoved == {} <==> !HasStray(s, tunnels, labs))
            && (!HasStray(s, tunnels, labs) ==> again == healed)
  {
    RepairRestoresGood(s, w', tunnels, overlayMtu, env);
    var healed := CheckAndRepair(s.(world := w'), overlayMtu, env).0;
    OrphanIffStray(healed, tunnels, labs);
    DeclareOnGoodState(healed, tunnels, labs, overlayMtu, env2);
  }

  // ---- Why interfaces must not be shared ----

  /** How many of the first `k` tracked links run over `n`. */
  function Sharing(s: Overlay, n: string, k: nat): nat
    requires k <= |s.order| && forall i :: 0 <= i < k ==> s.order[i] in s.tracking
  {
    if k == 0 then 0
    else Sharing(s, n, k - 1) + if s.tracking[s.order[k - 1]].interfaceName == n then 1 else 0
  }

  lemma RepairOfMissing(s: Overlay, snapshot: map<string, OvsPort>, link: string, overlayMtu: int, rc: Rc)
    requires Valid(s) && link in s.tracking && AllOk(rc) && s.tracking[link].interfaceName !in snapshot
    ensures var n := s.tracking[link].interfaceName;
            var w' := RepairLink(s, snapshot, link, overlayMtu, rc).0.world;
            if n in s.world.ports then n in w'.ports && !w'.ports[n].healthy else HealthyAt(w', n)
  {
    var lt := s.tracking[link];
    var n := lt.interfaceName;
    CreateDeviceContract(s.world, n, lt.vni, lt.localIp, lt.remoteIp, TagOf(lt.localVlan), lt.tenantMtu,
                         overlayMtu, rc);
    var w' := RepairLink(s, snapshot, link, overlayMtu, rc).0.world;
    assert n in s.world.ports ==> n !in w'.devices;
  }

  /** How a port that was missing stands after `count` repairs of it. */
  ghost predicate Stage(w: World, n: string, count: nat) {
    (n in w.ports <==> count > 0) && (HealthyAt(w, n) <==> count == 1)
  }

  lemma StageStep(s: Overlay, snapshot: map<string, OvsPort>, link: string, overlayMtu: int, rc: Rc, n: string,
                  count: nat)
    requires Valid(s) && link in s.tracking && AllOk(rc) && n !in snapshot && Stage(s.world, n, count)
    ensures Stage(RepairLink(s, snapshot, link, overlayMtu, rc).0.world, n,
                  count + if s.tracking[link].interfaceName == n then 1 else 0)
  {
    if s.tracking[link].interfaceName == n {
      RepairOfMissing(s, snapshot, link, overlayMtu, rc);
    } else {
      RepairLinkFrame(s, snapshot, link, overlayMtu, rc);
      assert SameAt(s.world, RepairLink(s, snapshot, link, overlayMtu, rc).0.world, n);
    }
  }

  lemma SharedRepairs(s: Overlay, snapshot: map<string, OvsPort>, overlayMtu: int, rcs: nat -> Rc, k: nat, n: string)
    requires Valid(s) && k <= |s.order| && (forall i: nat :: AllOk(rcs(i)))
    requires n !in snapshot && n !in s.world.ports
    ensures Stage(RepairLinks(s, snapshot, overlayMtu, rcs, k).0.world, n, Sharing(s, n, k))
  {
    var p := (t: Overlay, i: nat) => i <= |s.order| && WellFormed(t.world) && Stage(t.world, n, Sharing(s, n, i));
    forall i | 0 <= i < |s.order| ensures KeptByRepair(s, snapshot, overlayMtu, rcs, p, i) {
      forall t: Overlay | t == s.(world := t.world) && p(t, i)
        ensures p(RepairLink(t, snapshot, s.order[i], overlayMtu, rcs(i)).0, i + 1)
      {
        RepairLinkFrame(t, snapshot, s.order[i], overlayMtu, rcs(i));
        StageStep(t, snapshot, s.order[i], overlayMtu, rcs(i), n, Sharing(s, n, i));
      }
    }
    RepairsKeep(s, snapshot, overlayMtu, rcs, k, p);
  }

  /** A lost port comes back healthy exactly when one link is tracked over it: with two, the second
      repair finds the device it takes for stale, deletes it, and cannot add the port again. */
  lemma LostPortHealsIffUnshared(s: Overlay, overlayMtu: int, env: Env, n: string)
    requires Valid(s) && AllCommandsOk(env) && n !in s.world.ports
    ensures HealthyAt(CheckAndRepair(s, overlayMtu, env).0.world, n) <==> Sharing(s, n, |s.order|) == 1
  {
    if |s.tracking| > 0 {
      SharedRepairs(s, ReadPorts(s.world, true, true, true).value, overlayMtu, env.tunnel, |s.order|, n);
    } else {
      EmptyTogether(s);
    }
  }

  // ---- Incomplete readings ----

  /** Every tracked link is up as tracked. */
  ghost predicate AllUp(s: Overlay, overlayMtu: int) {
    forall k :: k in s.tracking ==> Up(s.world, s.tracking[k], overlayMtu)
  }

  /** A pass that sees all ports: a link is left alone, or built anew when its port reads as bad. */
  lemma SeeingRepairKeepsUp(s: Overlay, t: Overlay, ifacesOk: bool, link: string, overlayMtu: int, rc: Rc)
    requires Valid(t) && t == s.(world := t.world) && AllUp(s, overlayMtu) && AllUp(t, overlayMtu) && AllOk(rc)
    requires link in s.tracking && VxlanName(s.tracking[link].interfaceName)
    ensures var t' := RepairLink(t, ReadPorts(s.world, true, true, ifacesOk).value, link, overlayMtu, rc).0;
            Valid(t') && t' == s.(world := t'.world) && AllUp(t', overlayMtu)
  {
    var snapshot := ReadPorts(s.world, true, true, ifacesOk).value;
    var n := s.tracking[link].interfaceName;
    var t' := RepairLink(t, snapshot, link, overlayMtu, rc).0;
    assert Up(s.world, s.tracking[link], overlayMtu) && Up(t.world, s.tracking[link], overlayMtu);
    RepairLinkFrame(t, snapshot, link, overlayMtu, rc);
    if !snapshot[n].healthy { RepairedLinkIsUp(t, snapshot, link, overlayMtu, rc); }
    forall k | k in s.tracking ensures Up(t'.world, s.tracking[k], overlayMtu) {
      assert Up(t.world, s.tracking[k], overlayMtu);
      if s.tracking[k].interfaceName != n { assert SameAt(t.world, t'.world, s.tracking[k].interfaceName); }
    }
  }

  lemma SeeingPassKeepsUp(s: Overlay, overlayMtu: int, ifacesOk: bool, rcs: nat -> Rc)
    requires Valid(s) && AllUp(s, overlayMtu) && (forall i: nat :: AllOk(rcs(i)))
    requires forall k :: k in s.tracking ==> VxlanName(s.tracking[k].interfaceName)
    ensures var snapshot := ReadPorts(s.world, true, true, ifacesOk).value;
            AllUp(RepairLinks(s, snapshot, overlayMtu, rcs, |s.order|).0, overlayMtu)
  {
    var snapshot := ReadPorts(s.world, true, true, ifacesOk).value;
    var p := (t: Overlay, i: nat) => Valid(t) && t == s.(world := t.world) && AllUp(t, overlayMtu);
    forall i | 0 <= i < |s.order| ensures KeptByRepair(s, snapshot, overlayMtu, rcs, p, i) {
      forall t: Overlay | t == s.(world := t.world) && p(t, i)
        ensures p(RepairLink(t, snapshot, s.order[i], overlayMtu, rcs(i)).0, i + 1)
      {
        SeeingRepairKeepsUp(s, t, ifacesOk, s.order[i], overlayMtu, rcs(i));
      }
    }
    RepairsKeep(s, snapshot, overlayMtu, rcs, |s.order|, p);
  }

  /** A port on the bridge whose device is gone. */
  ghost predicate Down(w: World, n: string) { n in w.ports && !w.ports[n].healthy && n !in w.devices }

  /** All tracked ports are on the bridge, and the first `k` of them are down. */
  ghost predicate DownUpTo(s: Overlay, t: Overlay, k: nat)
    requires WellOrdered(s) && k <= |s.order|
  {
    && Valid(t) && t == s.(world := t.world)
    && (forall i :: 0 <= i < |s.order| ==> s.tracking[s.order[i]].interfaceName in t.world.ports)
    && (forall i :: 0 <= i < k ==> Down(t.world, s.tracking[s.order[i]].interfaceName))
  }

  lemma BlindRepair(s: Overlay, t: Overlay, k: nat, overlayMtu: int, rc: Rc)
    requires WellOrdered(s) && k < |s.order| && DownUpTo(s, t, k) && AllOk(rc)
    ensures DownUpTo(s, RepairLink(t, map[], s.order[k], overlayMtu, rc).0, k + 1)
    ensures !RepairLink(t, map[], s.order[k], overlayMtu, rc).1
  {
    var lt := s.tracking[s.order[k]];
    var n := lt.interfaceName;
    CreateDeviceContract(t.world, n, lt.vni, lt.localIp, lt.remoteIp, TagOf(lt.localVlan), lt.tenantMtu,
                         overlayMtu, rc);
    var t' := RepairLink(t, map[], s.order[k], overlayMtu, rc).0;
    forall m | m in t.world.ports ensures m in t'.world.ports && (Down(t.world, m) || m == n ==> Down(t'.world, m)) {
      if m != n { assert SameAt(t.world, t'.world, m); }
    }
  }

  lemma BlindPass(s: Overlay, overlayMtu: int, rcs: nat -> Rc)
    requires Valid(s) && AllUp(s, overlayMtu) && forall i: nat :: AllOk(rcs(i))
    ensures DownUpTo(s, RepairLinks(s, map[], overlayMtu, rcs, |s.order|).0, |s.order|)
  {
    var p := (t: Overlay, i: nat) => i <= |s.order| && DownUpTo(s, t, i);
    forall i | 0 <= i < |s.order| ensures KeptByRepair(s, map[], overlayMtu, rcs, p, i) {
      forall t: Overlay | t == s.(world := t.world) && p(t, i)
        ensures p(RepairLink(t, map[], s.order[i], overlayMtu, rcs(i)).0, i + 1)
      {
        BlindRepair(s, t, i, overlayMtu, rcs(i));
      }
    }
    forall i | 0 <= i < |s.order| ensures s.tracking[s.order[i]].interfaceName in s.world.ports {
      assert Up(s.world, s.tracking[s.order[i]], overlayMtu);
    }
    RepairsKeep(s, map[], overlayMtu, rcs, |s.order|, p);
  }

  /** An incomplete reading.  With all other commands working, a pass over links that are all up leaves
      them up exactly when the listing failed (the pass is skipped), the Port query worked, or nothing is
      tracked.  After a failed Port query every tracked port is left without its device. */
  lemma UpSurvivesReading(s: Overlay, overlayMtu: int, env: Env)
    requires Valid(s) && AllUp(s, overlayMtu) && AllCommandsOk(env.(listOk := true, tagsOk := true, ifacesOk := true))
    requires forall k :: k in s.tracking ==> VxlanName(s.tracking[k].interfaceName)
    ensures var s' := CheckAndRepair(s, overlayMtu, env).0;
            && (AllUp(s', overlayMtu) <==> !env.listOk || env.tagsOk || s.tracking == map[])
            && (env.listOk && !env.tagsOk ==>
                  forall k :: k in s.tracking ==> Down(s'.world, s.tracking[k].interfaceName))
  {
    if env.listOk && s.tracking != map[] {
      if env.tagsOk {
        SeeingPassKeepsUp(s, overlayMtu, env.ifacesOk, env.tunnel);
      } else {
        BlindPass(s, overlayMtu, env.tunnel);
        var s' := CheckAndRepair(s, overlayMtu, env).0;
        forall k | k in s.tracking ensures Down(s'.world, s.tracking[k].interfaceName) {
          var i :| 0 <= i < |s.order| && s.order[i] == k;
        }
        var k :| k in s.tracking;
        assert !Up(s'.world, s.tracking[k], overlayMtu);
      }
    }
  }

  lemma EmptyTogether(s: Overlay)
    requires WellOrdered(s)
    ensures s.order != [] ==> s.tracking != map[]
  {
    if s.order != [] { assert s.order[0] in s.tracking; }
  }
}
