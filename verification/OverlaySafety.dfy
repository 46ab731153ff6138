/** What declare_state keeps safe when commands fail, and what an incomplete reading does. */
module OverlaySafety {
  import opened Wrappers
  import opened OverlayWorld
  import opened OverlayState
  import opened OverlayTheorems

  // ---- Scoped orphan removal ----

  /** Some link of a lab in `labs` ran over `p`. */
  ghost predicate TrackedIn(s: Overlay, labs: set<string>, p: string) {
    exists k :: k in s.tracking && s.tracking[k].interfaceName == p && s.tracking[k].labId in labs
  }

  /** Scoped removal, for every outcome of every command.  A failed listing changes nothing at all.
      Otherwise each removed port was undeclared, is called vxlan-..., and carried a tracked link of
      a lab in scope; every port and device that is neither removed nor named by a live tunnel is
      untouched; and afterwards exactly the links over removed ports are forgotten. */
  lemma DeclareIsScoped(s: Overlay, tunnels: seq<Tunnel>, labs: set<string>, overlayMtu: int, env: Env)
    requires Valid(s)
    ensures var (s', r) := Declare(s, tunnels, labs, overlayMtu, env);
            && (!env.listOk ==> s' == s && r == Skipped)
            && (env.listOk ==>
                  && r.Declared? && Valid(s')
                  && (forall p :: p in r.orphansRemoved ==>
                        && p in s.world.ports && p !in DeclaredNames(tunnels) && "vxlan-" <= p
                        && TrackedIn(s, DeclaredLabs(tunnels, labs), p))
                  && (forall p :: p !in r.orphansRemoved && p !in LivePorts(tunnels, |tunnels|) ==>
                        SameAt(s.world, s'.world, p))
                  && (forall k :: k in s'.tracking ==> s'.tracking[k].interfaceName !in r.orphansRemoved)
                  && (forall k :: k in s.tracking && k !in s'.tracking ==>
                        s.tracking[k].interfaceName in r.orphansRemoved))
  {
    if env.listOk {
      var snapshot := ReadPorts(s.world, env.listOk, env.tagsOk, env.ifacesOk).value;
      var names, scope := DeclaredNames(tunnels), DeclaredLabs(tunnels, labs);
      TunnelsFrame(s, snapshot, tunnels, overlayMtu, env.tunnel, |tunnels|);
      var s1 := DeclareTunnels(s, snapshot, tunnels, overlayMtu, env.tunnel, |tunnels|).0;
      LivePortsAreDeclared(tunnels);
      var orphans := Orphans(s1, snapshot, names, scope);
      forall p | p in orphans ensures TrackedIn(s, scope, p) {
        OrphanWasTracked(s, s1, tunnels, labs, p);
      }
      RemovePortsFrame(s1, orphans, env.orphan);
      DeclareUnfolded(s, snapshot, tunnels, labs, overlayMtu, env);
      ScopedStep(s, s1, RemovePorts(s1, orphans, env.orphan), tunnels, orphans);
    }
  }

  /** Every tracking entry is filed under its own link id. */
  ghost predicate Identified(s: Overlay) { forall k :: k in s.tracking ==> s.tracking[k].linkId == k }

  lemma PhaseKeepsIds(s: Overlay, s1: Overlay, tunnels: seq<Tunnel>)
    requires Identified(s) && PhaseFrame(s, s1, tunnels, |tunnels|)
    ensures Identified(s1)
  {
  }

  lemma RemovalKeepsIds(s: Overlay, ports: set<string>, rc: string -> Rc)
    requires Valid(s) && Identified(s)
    ensures Valid(RemovePorts(s, ports, rc)) && Identified(RemovePorts(s, ports, rc))
  {
    RemovePortsFrame(s, ports, rc);
  }

  lemma DeclareKeepsIds(s: Overlay, tunnels: seq<Tunnel>, labs: set<string>, overlayMtu: int, env: Env)
    requires Valid(s) && Identified(s)
    ensures var s' := Declare(s, tunnels, labs, overlayMtu, env).0; Valid(s') && Identified(s')
  {
    if env.listOk {
      var snapshot := ReadPorts(s.world, env.listOk, env.tagsOk, env.ifacesOk).value;
      var s1 := DeclareTunnels(s, snapshot, tunnels, overlayMtu, env.tunnel, |tunnels|).0;
      TunnelsFrame(s, snapshot, tunnels, overlayMtu, env.tunnel, |tunnels|);
      PhaseKeepsIds(s, s1, tunnels);
      RemovalKeepsIds(s1, Orphans(s1, snapshot, DeclaredNames(tunnels), DeclaredLabs(tunnels, labs)), env.orphan);
    }
  }

  lemma OrphanWasTracked(s: Overlay, s1: Overlay, tunnels: seq<Tunnel>, labs: set<string>, p: string)
    requires PhaseFrame(s, s1, tunnels, |tunnels|)
    requires IsOrphan(s1, DeclaredNames(tunnels), DeclaredLabs(tunnels, labs), p)
    ensures TrackedIn(s, DeclaredLabs(tunnels, labs), p)
  {
    OwnerIsTracked(s1.tracking, s1.order, p);
    var k :| k in s1.tracking && s1.tracking[k] == FirstOwner(s1.tracking, s1.order, p).value
             && s1.tracking[k].interfaceName == p;
    assert forall i :: 0 <= i < |tunnels| ==> tunnels[i].portName in DeclaredNames(tunnels);
    assert !IsForSome(s1.tracking[k], k, tunnels, |tunnels|);
  }

  lemma DeclaredLinksStay(s: Overlay, s1: Overlay, tunnels: seq<Tunnel>, removed: set<string>, k: string)
    requires PhaseFrame(s, s1, tunnels, |tunnels|) && removed !! DeclaredNames(tunnels)
    requires k in s.tracking && s1.tracking[k].interfaceName in removed
    ensures s1.tracking[k] == s.tracking[k]
  {
    assert forall i :: 0 <= i < |tunnels| ==> tunnels[i].portName in DeclaredNames(tunnels);
  }

  lemma ScopedStep(s: Overlay, s1: Overlay, s2: Overlay, tunnels: seq<Tunnel>, removed: set<string>)
    requires PhaseFrame(s, s1, tunnels, |tunnels|) && removed !! DeclaredNames(tunnels)
    requires forall p :: p !in removed ==> SameAt(s1.world, s2.world, p)
    requires forall k :: k in s2.tracking <==> k in s1.tracking && s1.tracking[k].interfaceName !in removed
    ensures forall p :: p !in removed && p !in LivePorts(tunnels, |tunnels|) ==> SameAt(s.world, s2.world, p)
    ensures forall k :: k in s.tracking && k !in s2.tracking ==> s.tracking[k].interfaceName in removed
  {
    forall p | p !in removed && p !in LivePorts(tunnels, |tunnels|) ensures SameAt(s.world, s2.world, p) {
      assert SameAt(s.world, s1.world, p) && SameAt(s1.world, s2.world, p);
    }
    forall k | k in s.tracking && k !in s2.tracking ensures s.tracking[k].interfaceName in removed {
      DeclaredLinksStay(s, s1, tunnels, removed, k);
    }
  }

  // ---- Exactly which ports go ----

  lemma {:induction false} OwnerOfConcat(tracking: map<string, LinkTunnel>, a: seq<string>, b: seq<string>, p: string)
    ensures FirstOwner(tracking, a + b, p)
         == if FirstOwner(tracking, a, p).Some? then FirstOwner(tracking, a, p) else FirstOwner(tracking, b, p)
  {
    if a == [] {
      assert a + b == b;
    } else {
      assert (a + b)[1..] == a[1..] + b;
      OwnerOfConcat(tracking, a[1..], b, p);
    }
  }

  lemma {:induction false} OwnerDependsOnPort(tracking: map<string, LinkTunnel>, tracking': map<string, LinkTunnel>,
                                              order: seq<string>, p: string)
    requires forall k :: k in order ==> k in tracking && k in tracking'
    requires forall k :: k in order ==>
               (tracking[k] == tracking'[k] || (tracking[k].interfaceName != p && tracking'[k].interfaceName != p))
    ensures FirstOwner(tracking, order, p) == FirstOwner(tracking', order, p)
  {
    if order != [] { OwnerDependsOnPort(tracking, tracking', order[1..], p); }
  }

  lemma {:induction false} NoOwner(tracking: map<string, LinkTunnel>, order: seq<string>, p: string)
    requires forall k :: k in order && k in tracking ==> tracking[k].interfaceName != p
    ensures FirstOwner(tracking, order, p) == None
  {
    if order != [] { NoOwner(tracking, order[1..], p); }
  }

  /** No live tunnel re-declares, under another port name, a link tracked over `p`. */
  ghost predicate NotMovedFrom(s: Overlay, tunnels: seq<Tunnel>, p: string) {
    forall i :: 0 <= i < |tunnels| && !IsProtected(tunnels[i]) && tunnels[i].linkId in s.tracking ==>
      s.tracking[tunnels[i].linkId].interfaceName != p
  }

  /** A port that no link moved away from is removed exactly when it is an orphan in the state
      before the call. */
  lemma OrphanIffBefore(s: Overlay, tunnels: seq<Tunnel>, labs: set<string>, overlayMtu: int, env: Env, p: string)
    requires Valid(s) && ReadComplete(env) && p in s.world.ports && NotMovedFrom(s, tunnels, p)
    ensures var r := Declare(s, tunnels, labs, overlayMtu, env).1;
            r.Declared?
            && (p in r.orphansRemoved <==> IsOrphan(s, DeclaredNames(tunnels), DeclaredLabs(tunnels, labs), p))
  {
    var snapshot := ReadPorts(s.world, true, true, true).value;
    TunnelsFrame(s, snapshot, tunnels, overlayMtu, env.tunnel, |tunnels|);
    var s1 := DeclareTunnels(s, snapshot, tunnels, overlayMtu, env.tunnel, |tunnels|).0;
    DeclareUnfolded(s, snapshot, tunnels, labs, overlayMtu, env);
    if p !in DeclaredNames(tunnels) && "vxlan-" <= p {
      PrefixIsVxlan(p);
      OwnerUnmoved(s, s1, tunnels, p);
    }
  }

  lemma AddedLinksAreNew(s: Overlay, s1: Overlay, j: nat)
    requires WellOrdered(s) && WellOrdered(s1) && s.order <= s1.order && |s.order| <= j < |s1.order|
    ensures s1.order[j] !in s.tracking
  {
    assert forall i :: 0 <= i < |s.order| ==> s.order[i] == s1.order[i];
  }

  lemma OldLinksOver(s: Overlay, s1: Overlay, tunnels: seq<Tunnel>, k: string, p: string)
    requires PhaseFrame(s, s1, tunnels, |tunnels|) && k in s.tracking
    requires p !in DeclaredNames(tunnels) && NotMovedFrom(s, tunnels, p)
    ensures s.tracking[k] == s1.tracking[k] || (s.tracking[k].interfaceName != p && s1.tracking[k].interfaceName != p)
  {
    assert forall i :: 0 <= i < |tunnels| ==> tunnels[i].portName in DeclaredNames(tunnels);
  }

  lemma NewLinksOver(s: Overlay, s1: Overlay, tunnels: seq<Tunnel>, k: string, p: string)
    requires PhaseFrame(s, s1, tunnels, |tunnels|) && k !in s.tracking && k in s1.tracking
    requires p !in DeclaredNames(tunnels)
    ensures s1.tracking[k].interfaceName != p
  {
    assert forall i :: 0 <= i < |tunnels| ==> tunnels[i].portName in DeclaredNames(tunnels);
  }

  lemma AddedOwner(s: Overlay, s1: Overlay, tunnels: seq<Tunnel>, added: seq<string>, p: string)
    requires WellOrdered(s) && WellOrdered(s1) && s1.order == s.order + added
    requires PhaseFrame(s, s1, tunnels, |tunnels|) && p !in DeclaredNames(tunnels)
    ensures FirstOwner(s1.tracking, added, p) == None
  {
    forall k | k in added ensures k in s1.tracking && s1.tracking[k].interfaceName != p {
      var j :| 0 <= j < |added| && added[j] == k;
      assert s1.order[|s.order| + j] == k;
      AddedLinksAreNew(s, s1, |s.order| + j);
      NewLinksOver(s, s1, tunnels, k, p);
    }
    NoOwner(s1.tracking, added, p);
  }

  lemma OldOwner(s: Overlay, s1: Overlay, tunnels: seq<Tunnel>, p: string)
    requires WellOrdered(s) && PhaseFrame(s, s1, tunnels, |tunnels|)
    requires p !in DeclaredNames(tunnels) && NotMovedFrom(s, tunnels, p)
    ensures FirstOwner(s1.tracking, s.order, p) == FirstOwner(s.tracking, s.order, p)
  {
    forall k | k in s.order
      ensures s.tracking[k] == s1.tracking[k] || (s.tracking[k].interfaceName != p && s1.tracking[k].interfaceName != p)
    {
      OldLinksOver(s, s1, tunnels, k, p);
    }
    OwnerDependsOnPort(s.tracking, s1.tracking, s.order, p);
  }

  lemma OwnerUnmoved(s: Overlay, s1: Overlay, tunnels: seq<Tunnel>, p: string)
    requires Valid(s) && Valid(s1) && PhaseFrame(s, s1, tunnels, |tunnels|)
    requires p !in DeclaredNames(tunnels) && NotMovedFrom(s, tunnels, p)
    ensures FirstOwner(s1.tracking, s1.order, p) == FirstOwner(s.tracking, s.order, p)
  {
    var added := s1.order[|s.order|..];
    OwnerOfConcat(s1.tracking, s.order, added, p);
    AddedOwner(s, s1, tunnels, added, p);
    OldOwner(s, s1, tunnels, p);
    assert s.order + added == s1.order;
  }

  /** Every link tracked over `p` is re-declared, necessarily under another port name. */
  ghost predicate MovedAwayFrom(s: Overlay, tunnels: seq<Tunnel>, p: string) {
    forall k :: k in s.tracking && s.tracking[k].interfaceName == p ==>
      exists i :: 0 <= i < |tunnels| && !IsProtected(tunnels[i]) && tunnels[i].linkId == k
  }

  /** A link that moves to a new port name leaves its old port behind: still on the bridge, and no
      longer tracked by anything, so that no later call can see it as an orphan. */
  lemma MovedLinkLeaksItsPort(s: Overlay, tunnels: seq<Tunnel>, labs: set<string>, overlayMtu: int, env: Env, p: string)
    requires Valid(s) && Proper(tunnels) && overlayMtu > 0 && AllCommandsOk(env)
    requires p in s.world.ports && p !in DeclaredNames(tunnels) && MovedAwayFrom(s, tunnels, p)
    ensures var (s', r) := Declare(s, tunnels, labs, overlayMtu, env);
            && r.Declared? && p !in r.orphansRemoved && SameAt(s.world, s'.world, p)
            && FirstOwner(s'.tracking, s'.order, p) == None
  {
    var snapshot := ReadPorts(s.world, true, true, true).value;
    TunnelsConverge(s, snapshot, tunnels, overlayMtu, env.tunnel, |tunnels|);
    TunnelsFrame(s, snapshot, tunnels, overlayMtu, env.tunnel, |tunnels|);
    var s1 := DeclareTunnels(s, snapshot, tunnels, overlayMtu, env.tunnel, |tunnels|).0;
    NothingOver(s, s1, tunnels, overlayMtu, p);
    DeclareUnfolded(s, snapshot, tunnels, labs, overlayMtu, env);
    DeclareIsScoped(s, tunnels, labs, overlayMtu, env);
    LivePortsAreDeclared(tunnels);
    RemovePortsFrame(s1, Orphans(s1, snapshot, DeclaredNames(tunnels), DeclaredLabs(tunnels, labs)), env.orphan);
  }

  lemma NothingOver(s: Overlay, s1: Overlay, tunnels: seq<Tunnel>, overlayMtu: int, p: string)
    requires Valid(s1) && PhaseFrame(s, s1, tunnels, |tunnels|) && AllGood(s1, tunnels, overlayMtu)
    requires p !in DeclaredNames(tunnels) && MovedAwayFrom(s, tunnels, p)
    ensures FirstOwner(s1.tracking, s1.order, p) == None
  {
    assert forall i :: 0 <= i < |tunnels| ==> tunnels[i].portName in DeclaredNames(tunnels);
    forall k | k in s1.tracking ensures s1.tracking[k].interfaceName != p {
      assert IsForSome(s1.tracking[k], k, tunnels, |tunnels|)
             || s.tracking[k].interfaceName == s1.tracking[k].interfaceName;
    }
    NoOwner(s1.tracking, s1.order, p);
  }

  ghost predicate Redeclared(tunnels: seq<Tunnel>, k: string) {
    exists i :: 0 <= i < |tunnels| && !IsProtected(tunnels[i]) && tunnels[i].linkId == k
  }

  /** The links that no live tunnel declares again. */
  ghost function Undeclared(s: Overlay, tunnels: seq<Tunnel>): map<string, LinkTunnel> {
    map k | k in s.tracking && !Redeclared(tunnels, k) :: s.tracking[k]
  }

  ghost predicate SameOver(tracking: map<string, LinkTunnel>, tracking': map<string, LinkTunnel>, k: string,
                           p: string) {
    && (k in tracking && tracking[k].interfaceName == p <==> k in tracking' && tracking'[k].interfaceName == p)
    && (k in tracking && tracking[k].interfaceName == p ==> tracking[k] == tracking'[k])
  }

  lemma {:induction false} OwnerBySame(tracking: map<string, LinkTunnel>, tracking': map<string, LinkTunnel>,
                                       order: seq<string>, p: string)
    requires forall k :: k in order ==> SameOver(tracking, tracking', k, p)
    ensures FirstOwner(tracking, order, p) == FirstOwner(tracking', order, p)
  {
    if order != [] {
      assert SameOver(tracking, tracking', order[0], p);
      OwnerBySame(tracking, tracking', order[1..], p);
    }
  }

  lemma UndeclaredOver(s: Overlay, s1: Overlay, tunnels: seq<Tunnel>, overlayMtu: int, k: string, p: string)
    requires PhaseFrame(s, s1, tunnels, |tunnels|) && AllGood(s1, tunnels, overlayMtu)
    requires p !in DeclaredNames(tunnels) && k in s.tracking
    ensures SameOver(Undeclared(s, tunnels), s1.tracking, k, p)
  {
    if Redeclared(tunnels, k) {
      var i :| 0 <= i < |tunnels| && !IsProtected(tunnels[i]) && tunnels[i].linkId == k;
      assert Good(s1, tunnels[i], overlayMtu) && tunnels[i].portName in DeclaredNames(tunnels);
    }
  }

  lemma OwnerAfterPhase(s: Overlay, s1: Overlay, tunnels: seq<Tunnel>, overlayMtu: int, p: string)
    requires Valid(s) && Valid(s1) && PhaseFrame(s, s1, tunnels, |tunnels|) && AllGood(s1, tunnels, overlayMtu)
    requires p !in DeclaredNames(tunnels)
    ensures FirstOwner(s1.tracking, s1.order, p) == FirstOwner(Undeclared(s, tunnels), s.order, p)
  {
    var added := s1.order[|s.order|..];
    assert s.order + added == s1.order;
    OwnerOfConcat(s1.tracking, s.order, added, p);
    AddedOwner(s, s1, tunnels, added, p);
    forall k | k in s.order ensures SameOver(Undeclared(s, tunnels), s1.tracking, k, p) {
      UndeclaredOver(s, s1, tunnels, overlayMtu, k, p);
    }
    OwnerBySame(Undeclared(s, tunnels), s1.tracking, s.order, p);
  }

  lemma RemovedByOwner(s: Overlay, tunnels: seq<Tunnel>, labs: set<string>, overlayMtu: int, env: Env, p: string)
    requires Valid(s) && Proper(tunnels) && overlayMtu > 0 && AllCommandsOk(env) && p in s.world.ports
    ensures var (s', r) := Declare(s, tunnels, labs, overlayMtu, env);
            var owner := FirstOwner(Undeclared(s, tunnels), s.order, p);
            && r.Declared?
            && (p in r.orphansRemoved <==>
                  && p !in DeclaredNames(tunnels) && "vxlan-" <= p
                  && owner.Some? && owner.value.labId in DeclaredLabs(tunnels, labs))
            && (p in r.orphansRemoved ==> p !in s'.world.ports && p !in s'.world.devices)
  {
    var snapshot := ReadPorts(s.world, true, true, true).value;
    TunnelsConverge(s, snapshot, tunnels, overlayMtu, env.tunnel, |tunnels|);
    TunnelsFrame(s, snapshot, tunnels, overlayMtu, env.tunnel, |tunnels|);
    var s1 := DeclareTunnels(s, snapshot, tunnels, overlayMtu, env.tunnel, |tunnels|).0;
    DeclareUnfolded(s, snapshot, tunnels, labs, overlayMtu, env);
    if p !in DeclaredNames(tunnels) {
      OwnerAfterPhase(s, s1, tunnels, overlayMtu, p);
      if "vxlan-" <= p { PrefixIsVxlan(p); }
    }
  }

  /** The link `k` is tracked over `p`, and no live tunnel declares it again. */
  ghost predicate RunsOver(s: Overlay, tunnels: seq<Tunnel>, k: string, p: string) {
    && k in s.tracking && s.tracking[k].interfaceName == p
    && forall i :: 0 <= i < |tunnels| && tunnels[i].linkId == k ==>
         tunnels[i].placeholder || tunnels[i].localIp == "" || tunnels[i].remoteIp == "" || tunnels[i].vni == 0
  }

  /** The `j`-th tracked link is the first that runs over `p`. */
  ghost predicate FirstOver(s: Overlay, tunnels: seq<Tunnel>, j: int, p: string) {
    && 0 <= j < |s.order| && RunsOver(s, tunnels, s.order[j], p)
    && forall i :: 0 <= i < j ==> !RunsOver(s, tunnels, s.order[i], p)
  }

  /** The lab is named by the call, or by one of its tunnels. */
  ghost predicate InScope(tunnels: seq<Tunnel>, labs: set<string>, lab: string) {
    lab in labs || exists t :: t in tunnels && t.labId == lab
  }

  lemma UndeclaredRunsOver(s: Overlay, tunnels: seq<Tunnel>, k: string, p: string)
    ensures RunsOver(s, tunnels, k, p)
       <==> k in Undeclared(s, tunnels) && Undeclared(s, tunnels)[k].interfaceName == p
    ensures RunsOver(s, tunnels, k, p) ==> Undeclared(s, tunnels)[k] == s.tracking[k]
  {
  }

  /** The first owner, as a position in the order. */
  lemma {:induction false} OwnerAt(tracking: map<string, LinkTunnel>, order: seq<string>, p: string) returns (j: nat)
    ensures j <= |order| && forall i :: 0 <= i < j ==> !(order[i] in tracking && tracking[order[i]].interfaceName == p)
    ensures if j < |order|
            then order[j] in tracking && tracking[order[j]].interfaceName == p
                 && FirstOwner(tracking, order, p) == Some(tracking[order[j]])
            else FirstOwner(tracking, order, p) == None
  {
    if order == [] || (order[0] in tracking && tracking[order[0]].interfaceName == p) {
      j := 0;
    } else {
      var i := OwnerAt(tracking, order[1..], p);
      j := i + 1;
      forall h | 0 <= h < j ensures !(order[h] in tracking && tracking[order[h]].interfaceName == p) {
        if h > 0 { assert order[1..][h - 1] == order[h]; }
      }
    }
  }

  /** Which ports a declaration removes, told from the state before it: those undeclared vxlan- ports
      that some link still runs over when the re-declared links are left out, the first such link
      being of a lab in scope.  They are then gone from the bridge. */
  lemma RemovedIff(s: Overlay, tunnels: seq<Tunnel>, labs: set<string>, overlayMtu: int, env: Env, p: string)
    requires Valid(s) && Proper(tunnels) && overlayMtu > 0 && AllCommandsOk(env) && p in s.world.ports
    ensures var (s', r) := Declare(s, tunnels, labs, overlayMtu, env);
            && r.Declared?
            && (p in r.orphansRemoved <==>
                  && (forall t :: t in tunnels ==> t.portName != p) && "vxlan-" <= p
                  && exists j :: FirstOver(s, tunnels, j, p) && InScope(tunnels, labs, s.tracking[s.order[j]].labId))
            && (p in r.orphansRemoved ==> p !in s'.world.ports && p !in s'.world.devices)
  {
    RemovedByOwner(s, tunnels, labs, overlayMtu, env, p);
    var j := OwnerAt(Undeclared(s, tunnels), s.order, p);
    forall k ensures RunsOver(s, tunnels, k, p)
                <==> k in Undeclared(s, tunnels) && Undeclared(s, tunnels)[k].interfaceName == p
    {
      UndeclaredRunsOver(s, tunnels, k, p);
    }
    if j < |s.order| {
      UndeclaredRunsOver(s, tunnels, s.order[j], p);
      assert FirstOver(s, tunnels, j, p);
      forall i | FirstOver(s, tunnels, i, p) ensures i == j { }
    }
    assert forall lab :: InScope(tunnels, labs, lab) <==> lab in DeclaredLabs(tunnels, labs);
    assert (forall t :: t in tunnels ==> t.portName != p) <==> p !in DeclaredNames(tunnels);
  }

  ghost predicate DistinctInterfaces(s: Overlay) {
    forall k, l :: k in s.tracking && l in s.tracking && k != l ==>
      s.tracking[k].interfaceName != s.tracking[l].interfaceName
  }

  /** Where every link has a port of its own, an orphan goes exactly when its link was not re-declared
      under another port name; otherwise it stays on the bridge and nothing tracks it any more. */
  lemma OrphanRemovedIffNotMoved(s: Overlay, tunnels: seq<Tunnel>, labs: set<string>, overlayMtu: int, env: Env,
                                 p: string)
    requires Valid(s) && Proper(tunnels) && overlayMtu > 0 && AllCommandsOk(env) && DistinctInterfaces(s)
    requires p in s.world.ports && IsOrphan(s, DeclaredNames(tunnels), DeclaredLabs(tunnels, labs), p)
    ensures var (s', r) := Declare(s, tunnels, labs, overlayMtu, env);
            && r.Declared? && (p in r.orphansRemoved <==> NotMovedFrom(s, tunnels, p))
            && (p in s'.world.ports <==> !NotMovedFrom(s, tunnels, p))
            && FirstOwner(s'.tracking, s'.order, p) == None
  {
    OwnerIsTracked(s.tracking, s.order, p);
    if NotMovedFrom(s, tunnels, p) {
      OrphanIffBefore(s, tunnels, labs, overlayMtu, env, p);
      RemovedByOwner(s, tunnels, labs, overlayMtu, env, p);
      var (s', r) := Declare(s, tunnels, labs, overlayMtu, env);
      DeclareIsScoped(s, tunnels, labs, overlayMtu, env);
      NoOwner(s'.tracking, s'.order, p);
    } else {
      MovedLinkLeaksItsPort(s, tunnels, labs, overlayMtu, env, p);
    }
  }

  // ---- Incomplete readings ----

  /** The tunnel's port is on the bridge without a device behind it. */
  ghost predicate Broken(s: Overlay, t: Tunnel) {
    t.portName in s.world.ports && !s.world.ports[t.portName].healthy && t.portName !in s.world.devices
  }

  lemma BlindTunnel(s: Overlay, t: Tunnel, overlayMtu: int, rc: Rc)
    requires Valid(s) && !IsProtected(t) && t.portName in s.world.ports && AllOk(rc)
    ensures var (s', r) := DeclareTunnel(s, map[], t, overlayMtu, rc); r.status == Error && Broken(s', t)
  {
    var n := t.portName;
    var w1 := if n in s.world.devices then LinkDelete(s.world, n, true) else s.world;
    assert n in w1.ports && !w1.ports[n].healthy && n !in w1.devices;
    var w2 := w1.(devices := w1.devices[n := Device(t.vni, t.localIp, t.remoteIp, rc.kernelMtu)]);
    var w3 := SetMtu(w2, n, DeviceMtu(DeviceMtu(t.mtu, overlayMtu), overlayMtu), true);
    assert MissingWorld(s.world, t, overlayMtu, rc) == (LinkDelete(w3, n, true), false);
  }

  lemma BrokenIsKept(s: Overlay, s': Overlay, t: Tunnel, other: Tunnel)
    requires Broken(s, other) && OnlyTouches(s, s', t) && other.portName != t.portName
    ensures Broken(s', other)
  {
    assert SameAt(s.world, s'.world, other.portName);
  }

  /** Every live tunnel among the first `k` is torn down and reported as an error. */
  ghost predicate Blinded(s': Overlay, results: seq<TunnelResult>, tunnels: seq<Tunnel>, k: nat)
    requires k <= |tunnels| && |results| == k
  {
    forall i :: 0 <= i < k && !IsProtected(tunnels[i]) ==> results[i].status == Error && Broken(s', tunnels[i])
  }

  lemma BlindOneMore(s1: Overlay, results: seq<TunnelResult>, tunnels: seq<Tunnel>, overlayMtu: int, rc: Rc, k: nat)
    requires Valid(s1) && Proper(tunnels) && 0 < k <= |tunnels| && AllOk(rc)
    requires |results| == k - 1 && Blinded(s1, results, tunnels, k - 1)
    requires !IsProtected(tunnels[k - 1]) ==> tunnels[k - 1].portName in s1.world.ports
    ensures var (s2, r) := DeclareTunnel(s1, map[], tunnels[k - 1], overlayMtu, rc);
            Blinded(s2, results + [r], tunnels, k)
  {
    var t := tunnels[k - 1];
    TunnelFrame(s1, map[], t, overlayMtu, rc);
    if !IsProtected(t) {
      BlindTunnel(s1, t, overlayMtu, rc);
      var s2 := DeclareTunnel(s1, map[], t, overlayMtu, rc).0;
      forall i | 0 <= i < k - 1 && !IsProtected(tunnels[i]) ensures Broken(s2, tunnels[i]) {
        BrokenIsKept(s1, s2, t, tunnels[i]);
      }
    }
  }

  lemma {:induction false} BlindTunnels(s: Overlay, tunnels: seq<Tunnel>, overlayMtu: int, rcs: nat -> Rc, k: nat)
    requires Valid(s) && Proper(tunnels) && k <= |tunnels| && AllGood(s, tunnels, overlayMtu)
    requires forall i: nat :: AllOk(rcs(i))
    ensures var (s', results) := DeclareTunnels(s, map[], tunnels, overlayMtu, rcs, k);
            Blinded(s', results, tunnels, k)
  {
    if k > 0 {
      var (s1, results) := DeclareTunnels(s, map[], tunnels, overlayMtu, rcs, k - 1);
      BlindTunnels(s, tunnels, overlayMtu, rcs, k - 1);
      TunnelsFrame(s, map[], tunnels, overlayMtu, rcs, k - 1);
      if !IsProtected(tunnels[k - 1]) {
        assert SameAt(s.world, s1.world, tunnels[k - 1].portName) by {
          assert tunnels[k - 1].portName !in LivePorts(tunnels, k - 1);
        }
      }
      BlindOneMore(s1, results, tunnels, overlayMtu, rcs(k - 1), k);
    }
  }

  ghost predicate HasLive(tunnels: seq<Tunnel>) {
    exists i :: 0 <= i < |tunnels| && !IsProtected(tunnels[i])
  }

  /** An incomplete reading.  With all other commands working, a state that is as declared survives
      another call exactly when the listing failed (the call is skipped), the Port query worked, or
      there is no live tunnel.  A failed Port query reads as "no ports" instead of "unknown": every
      live tunnel is then torn down and reported as an error. */
  lemma GoodSurvivesReading(s: Overlay, tunnels: seq<Tunnel>, labs: set<string>, overlayMtu: int, env: Env)
    requires Valid(s) && Proper(tunnels) && overlayMtu > 0 && AllGood(s, tunnels, overlayMtu)
    requires AllCommandsOk(env.(listOk := true, tagsOk := true, ifacesOk := true))
    ensures var (s', r) := Declare(s, tunnels, labs, overlayMtu, env);
            && (AllGood(s', tunnels, overlayMtu) <==> !env.listOk || env.tagsOk || !HasLive(tunnels))
            && (env.listOk && !env.tagsOk ==>
                  r.Declared? && |r.results| == |tunnels|
                  && forall i :: 0 <= i < |tunnels| && !IsProtected(tunnels[i]) ==>
                       r.results[i].status == Error && Broken(s', tunnels[i]))
  {
    if env.listOk {
      var snapshot := ReadPorts(s.world, env.listOk, env.tagsOk, env.ifacesOk).value;
      var s1 := DeclareTunnels(s, snapshot, tunnels, overlayMtu, env.tunnel, |tunnels|).0;
      var orphans := Orphans(s1, snapshot, DeclaredNames(tunnels), DeclaredLabs(tunnels, labs));
      TunnelsFrame(s, snapshot, tunnels, overlayMtu, env.tunnel, |tunnels|);
      DeclareUnfolded(s, snapshot, tunnels, labs, overlayMtu, env);
      if env.tagsOk {
        TunnelsConverge(s, snapshot, tunnels, overlayMtu, env.tunnel, |tunnels|);
        RemovalKeepsGood(s1, tunnels, orphans, env.orphan, overlayMtu);
        CacheIsApart(RemovePorts(s1, orphans, env.orphan), Some(Cacheable(tunnels)), tunnels, labs, overlayMtu);
      } else {
        BlindTunnels(s, tunnels, overlayMtu, env.tunnel, |tunnels|);
        assert orphans == {};
        RemoveNothing(s1, env.orphan);
      }
    }
  }
}
