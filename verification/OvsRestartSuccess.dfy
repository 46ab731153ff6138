/** A restart whose commands work ends without an error; and the two ways in which it then still leaves
    a link on two VLANs. */
module OvsRestartSuccess {
  import opened Wrappers
  import opened VlanPools
  import opened OvsProvision
  import opened OvsBookkeeping
  import opened OvsRestart
  import opened OvsVlanNames
  import opened OvsReconnectOrder

  ghost predicate ProvisionWorks(rc: ProvisionRc) { rc.pidOk && rc.addLink && rc.addPort && rc.move }

  /** Every command of a restart with `n` stale ports works, and the generated port names are new. */
  ghost predicate Works(s: Manager, env: RestartEnv, n: nat) {
    && (forall q :: env.probe(q) != ProbeError)
    && (forall i: nat :: i < n ==> ProvisionWorks(env.provision(i)) && env.provision(i).portName !in s.bridge)
    && (forall i: nat, j: nat :: i < j < n ==> env.provision(i).portName != env.provision(j).portName)
    && (forall i: nat, j: nat :: env.connect(i)(j))
  }

  /** From `m` to `m'` books and bridge stayed in order, with the same ports on both. */
  ghost predicate InOrder(m: Manager, m': Manager) {
    Book(m') && BridgeAgrees(m') && m'.ports.Keys == m.ports.Keys && m'.bridge.Keys == m.bridge.Keys
  }

  lemma ConnectSucceeds(m: Manager, m1: Manager, a: Key, b: Key, labId: string)
    requires InOrder(m, m1) && a in m.ports && b in m.ports
    ensures var (m2, tag) := HotConnect(m1, a, b, labId, true); tag.Some? && InOrder(m, m2)
  {
    HotConnectContract(m1, a, b, labId, true);
  }

  ghost predicate EndsTracked(m: Manager, pairs: seq<(Key, Key)>) {
    forall i :: 0 <= i < |pairs| ==> pairs[i].0 in m.ports && pairs[i].1 in m.ports
  }

  lemma {:induction false} ReconnectSucceeds(m: Manager, pairs: seq<(Key, Key)>, labId: string, ok: nat -> bool, k: nat)
    requires k <= |pairs| && Book(m) && BridgeAgrees(m) && EndsTracked(m, pairs) && forall j: nat :: ok(j)
    ensures var (m', errors) := Reconnect(m, pairs, labId, ok, k); errors == 0 && InOrder(m, m')
  {
    if k > 0 {
      ReconnectSucceeds(m, pairs, labId, ok, k - 1);
      ConnectSucceeds(m, Reconnect(m, pairs, labId, ok, k - 1).0, pairs[k - 1].0, pairs[k - 1].1, labId);
    }
  }

  lemma ProvisionSucceeds(m: Manager, key: Key, labId: string, rc: ProvisionRc)
    requires Book(m) && BridgeAgrees(m) && key !in m.ports && ProvisionWorks(rc) && rc.portName !in m.bridge
    requires AllocateTag(m.vlans, key).1.Some?
    ensures var (m', tag) := Provision(m, key, labId, None, rc);
            && tag.Some? && Book(m') && BridgeAgrees(m')
            && m'.ports.Keys == m.ports.Keys + {key} && m'.bridge.Keys == m.bridge.Keys + {rc.portName}
  {
    ProvisionContract(m, key, labId, None, rc);
    FreshNameKeepsBridge(m, key, labId, None, rc);
  }

  lemma CleanupKeepsAgreement(m: Manager, key: Key, delPort: bool)
    requires Book(m) && BridgeAgrees(m) && key in m.ports
    ensures var m1 := CleanupStale(m, key, m.ports[key].portName, delPort);
            && BridgeAgrees(m1) && m1.ports.Keys == m.ports.Keys - {key} && m1.bridge.Keys <= m.bridge.Keys
  {
    ForgetKeepsBridge(m, key, delPort);
  }

  /** One stale port with working commands, as long as the allocator is ahead. */
  lemma RoundSucceeds(m: Manager, key: Key, pairs: seq<(Key, Key)>, labId: string, i: nat, env: RestartEnv,
                      next: int, n: nat)
    requires BridgeAgrees(m) && key in m.ports && EndsTracked(m, pairs)
    requires AheadAfter(m, next, i, n) && i < n && VLAN_START <= next && next + n <= VLAN_END + 1
    requires ProvisionWorks(env.provision(i)) && env.provision(i).portName !in m.bridge
    requires forall j: nat :: env.connect(i)(j)
    ensures var (m', errors) := Reprovision(m, key, m.ports[key].portName, pairs, labId, i, env);
            && errors == 0 && BridgeAgrees(m') && AheadAfter(m', next, i + 1, n)
            && m'.ports.Keys == m.ports.Keys && m'.bridge.Keys <= m.bridge.Keys + {env.provision(i).portName}
  {
    var portName := m.ports[key].portName;
    var m1 := CleanupStale(m, key, portName, env.delPort(i));
    CleanupKeepsAgreement(m, key, env.delPort(i));
    CleanupForgets(m, key, portName, env.delPort(i));
    AllocatesNext(m1.vlans, key, next + i);
    ProvisionSucceeds(m1, key, labId, env.provision(i));
    var m2 := Provision(m1, key, labId, None, env.provision(i)).0;
    ReconnectSucceeds(m2, pairs, labId, env.connect(i), |pairs|);
    ReprovisionsNext(m, key, portName, pairs, labId, i, env, next, n);
  }

  /** After `i` rounds: no error so far, and what the remaining rounds need. */
  ghost predicate Smooth(s: Manager, stale: seq<Key>, env: RestartEnv, m: Manager, i: nat)
    requires i <= |stale|
  {
    && BridgeAgrees(m) && AheadAfter(m, s.vlans.next, i, |stale|) && m.ports.Keys == s.ports.Keys
    && (forall j :: i <= j < |stale| ==>
          stale[j] in s.ports && stale[j] in m.ports && m.ports[stale[j]].portName == s.ports[stale[j]].portName)
    && (forall j: nat :: i <= j < |stale| ==> env.provision(j).portName !in m.bridge)
  }

  lemma StaysSmooth(s: Manager, stale: seq<Key>, env: RestartEnv, m: Manager, m': Manager, i: nat)
    requires i < |stale| && Works(s, env, |stale|) && NoRepeats(stale) && Smooth(s, stale, env, m, i)
    requires BridgeAgrees(m') && AheadAfter(m', s.vlans.next, i + 1, |stale|) && m'.ports.Keys == m.ports.Keys
    requires m'.bridge.Keys <= m.bridge.Keys + {env.provision(i).portName}
    requires forall q :: q in m.ports && q != stale[i] ==> q in m'.ports && SamePort(m'.ports[q], m.ports[q])
    ensures Smooth(s, stale, env, m', i + 1)
  {
    forall j | i + 1 <= j < |stale| ensures m'.ports[stale[j]].portName == s.ports[stale[j]].portName {
      assert SamePort(m'.ports[stale[j]], m.ports[stale[j]]);
    }
    forall j: nat | i + 1 <= j < |stale| ensures env.provision(j).portName !in m'.bridge {
      assert env.provision(j).portName != env.provision(i).portName;
    }
  }

  lemma RoundIsSmooth(s: Manager, stale: seq<Key>, labId: string, env: RestartEnv, m: Manager, i: nat)
    requires Book(s) && CursorAhead(s, |stale|) && Works(s, env, |stale|) && NoRepeats(stale)
    requires i < |stale| && Smooth(s, stale, env, m, i)
    ensures var (m', more) := Round(s, stale, labId, env, m, i); more == 0 && Smooth(s, stale, env, m', i + 1)
  {
    var pairs := Connected(s.links, stale[i]);
    ConnectedMembers(s.links, stale[i]);
    assert forall j :: 0 <= j < |pairs| ==> pairs[j] in pairs;
    RoundSucceeds(m, stale[i], pairs, labId, i, env, s.vlans.next, |stale|);
    ReprovisionContract(m, stale[i], m.ports[stale[i]].portName, pairs, labId, i, env);
    StaysSmooth(s, stale, env, m, Reprovision(m, stale[i], m.ports[stale[i]].portName, pairs, labId, i, env).0, i);
  }

  ghost predicate SmoothUpTo(s: Manager, stale: seq<Key>, labId: string, env: RestartEnv, k: nat)
    requires k <= |stale|
  {
    var (m, errors) := Iterate(s, StaleRound(s, stale, labId, env), k);
    errors == 0 && Smooth(s, stale, env, m, k)
  }

  ghost predicate Ready(s: Manager, stale: seq<Key>, env: RestartEnv) {
    && Book(s) && BridgeAgrees(s) && CursorAhead(s, |stale|) && Works(s, env, |stale|) && NoRepeats(stale)
    && forall i :: 0 <= i < |stale| ==> stale[i] in s.ports
  }

  lemma SmoothAtStart(s: Manager, stale: seq<Key>, labId: string, env: RestartEnv)
    requires Ready(s, stale, env)
    ensures SmoothUpTo(s, stale, labId, env, 0)
  {
  }

  lemma SmoothNext(s: Manager, stale: seq<Key>, labId: string, env: RestartEnv, k: nat)
    requires Ready(s, stale, env) && k < |stale| && SmoothUpTo(s, stale, labId, env, k)
    ensures SmoothUpTo(s, stale, labId, env, k + 1)
  {
    IterateOneMore(s, StaleRound(s, stale, labId, env), k);
    RoundIsSmooth(s, stale, labId, env, Iterate(s, StaleRound(s, stale, labId, env), k).0, k);
  }

  lemma {:induction false} RoundsSucceed(s: Manager, stale: seq<Key>, labId: string, env: RestartEnv, k: nat)
    requires Ready(s, stale, env) && k <= |stale|
    ensures SmoothUpTo(s, stale, labId, env, k)
  {
    if k == 0 {
      SmoothAtStart(s, stale, labId, env);
    } else {
      RoundsSucceed(s, stale, labId, env, k - 1);
      SmoothNext(s, stale, labId, env, k - 1);
    }
  }

  lemma {:induction false} NoProbeErrors(keys: seq<Key>, probe: Key -> Probe)
    requires forall q :: probe(q) != ProbeError
    ensures WithProbe(keys, probe, ProbeError) == []
  {
    if keys != [] { NoProbeErrors(keys[1..], probe); }
  }

  lemma NoRepeatsInFront(key: Key, rest: seq<Key>)
    requires NoRepeats(rest) && key !in rest
    ensures NoRepeats([key] + rest)
  {
  }

  lemma {:induction false} SelectionHasNoRepeats(order: seq<Key>, container: string, probe: Key -> Probe)
    requires NoRepeats(order)
    ensures NoRepeats(WithProbe(PortsOf(order, container), probe, Stale))
  {
    if order != [] {
      var rest := WithProbe(PortsOf(order[1..], container), probe, Stale);
      SelectionHasNoRepeats(order[1..], container, probe);
      StaleAreKeys(order[1..], container, probe, Stale);
      SelectionFromFirst(order, container, probe);
      NoRepeatsInFront(order[0], rest);
      assert [] + rest == rest;
    }
  }

  lemma SelectionFromFirst(order: seq<Key>, container: string, probe: Key -> Probe)
    requires order != []
    ensures WithProbe(PortsOf(order, container), probe, Stale)
         == (if order[0].container == container && probe(order[0]) == Stale then [order[0]] else [])
            + WithProbe(PortsOf(order[1..], container), probe, Stale)
  {
    var rest := PortsOf(order[1..], container);
    if order[0].container == container {
      assert ([order[0]] + rest)[1..] == rest;
    } else {
      assert [] + rest == rest && [] + WithProbe(rest, probe, Stale) == WithProbe(rest, probe, Stale);
    }
  }

  /** With working commands, new port names and the cursor ahead a restart has no error. */
  lemma RestartSucceeds(s: Manager, container: string, labId: string, env: RestartEnv)
    requires Book(s) && BridgeAgrees(s)
    requires var n := |StaleKeys(s, container, env)|; CursorAhead(s, n) && Works(s, env, n)
    ensures var (s', errors) := Restart(s, container, labId, env); errors == 0 && BridgeAgrees(s')
  {
    var stale := StaleKeys(s, container, env);
    StaleTracked(s, container, env);
    SelectionHasNoRepeats(s.order, container, env.probe);
    RoundsSucceed(s, stale, labId, env, |stale|);
    NoProbeErrors(PortsOf(s.order, container), env.probe);
  }

  /** Working commands and the cursor ahead: the restart has no error, and all links work afterwards
      exactly when the names at their ends agree. */
  lemma WorkingRestart(s: Manager, container: string, labId: string, env: RestartEnv)
    requires Book(s) && BridgeAgrees(s) && TagsAgree(s)
    requires var n := |StaleKeys(s, container, env)|; CursorAhead(s, n) && Works(s, env, n)
    ensures var stale := StaleKeys(s, container, env);
            var (s', errors) := Restart(s, container, labId, env);
            errors == 0 && SameTopology(s, s') && (TagsAgree(s') <==> NamesAgree(s, NamesAfter(s, stale, |stale|)))
  {
    RestartSucceeds(s, container, labId, env);
    RestartPreservesTopology(s, container, labId, env);
    RestartReconnectsIff(s, container, labId, env);
  }

  // ---- Two labs in which a restart leaves a link on two VLANs ----

  /** Three linked ports on VLAN 100, which the first of them has reserved. */
  function ThreePorts(x: Key, y: Key, z: Key, links: seq<Link>): Manager {
    Manager(map[x := Port("x", 100, "lab", None), y := Port("y", 100, "lab", None), z := Port("z", 100, "lab", None)],
            [x, y, z], links, Allocator(map[x := 100], 101), map["x" := 100, "y" := 100, "z" := 100])
  }

  /** The port `key` has lost its peer, and everything works. */
  function Restarted1(key: Key): RestartEnv {
    RestartEnv((q: Key) => if q == key then Stale else Healthy, (i: nat) => true,
               (i: nat) => ProvisionRc(true, "new", true, true, true, true), (i: nat) => (j: nat) => true)
  }

  ghost predicate Among(links: seq<Link>, keys: set<Key>) { forall l :: l in links ==> l.a in keys && l.b in keys }

  lemma NamesDiffer()
    ensures "x" != "y" && "x" != "z" && "y" != "z" && "new" !in {"x", "y", "z"}
  {
    assert "x"[0] != "y"[0] && "x"[0] != "z"[0] && "y"[0] != "z"[0];
    assert |"new"| == 3;
  }

  lemma ThreePortsBook(x: Key, y: Key, z: Key, links: seq<Link>)
    requires x != y && x != z && y != z && Among(links, {x, y, z})
    ensures Book(ThreePorts(x, y, z, links))
  {
    var s := ThreePorts(x, y, z, links);
    assert s.order[0] == x && s.order[1] == y && s.order[2] == z;
  }

  lemma ThreePortsAgree(x: Key, y: Key, z: Key, links: seq<Link>)
    requires x != y && x != z && y != z
    ensures BridgeAgrees(ThreePorts(x, y, z, links))
  {
    NamesDiffer();
  }

  lemma ThreePortsOnOneVlan(x: Key, y: Key, z: Key, links: seq<Link>)
    requires Among(links, {x, y, z})
    ensures TagsAgree(ThreePorts(x, y, z, links)) && CursorAhead(ThreePorts(x, y, z, links), 1)
  {
    var s := ThreePorts(x, y, z, links);
    forall q | q in s.ports ensures s.ports[q].tag == 100 {
    }
    forall p | p in Pairs(links) ensures OneVlan(s, p) {
      assert p.0 in {x, y, z} && p.1 in {x, y, z};
    }
  }

  lemma ThreePortsWork(x: Key, y: Key, z: Key, links: seq<Link>, key: Key)
    ensures Works(ThreePorts(x, y, z, links), Restarted1(key), 1)
  {
    NamesDiffer();
  }

  /** The port of container k restarts in a lab of three, its links being in no good order. */
  lemma RestartSplits(x: Key, y: Key, z: Key, links: seq<Link>, key: Key, pairs: seq<(Key, Key)>)
    requires x != y && x != z && y != z && Among(links, {x, y, z})
    requires StaleKeys(ThreePorts(x, y, z, links), key.container, Restarted1(key)) == [key]
    requires pairs == Connected(links, key) && DistinctNeighbours(pairs, key)
    requires !OrderIsGood(ThreePorts(x, y, z, links), pairs, key)
    ensures var s := ThreePorts(x, y, z, links);
            var (s', errors) := Restart(s, key.container, "lab", Restarted1(key));
            Book(s) && BridgeAgrees(s) && TagsAgree(s) && errors == 0 && !TagsAgree(s')
  {
    var s := ThreePorts(x, y, z, links);
    ThreePortsBook(x, y, z, links);
    ThreePortsAgree(x, y, z, links);
    ThreePortsOnOneVlan(x, y, z, links);
    ThreePortsWork(x, y, z, links, key);
    RestartSucceeds(s, key.container, "lab", Restarted1(key));
    OneStalePortIff(s, key.container, "lab", Restarted1(key), key);
  }

  lemma OneIsStale(x: Key, y: Key, z: Key, links: seq<Link>, key: Key)
    requires x != y && x != z && y != z && key in {x, y, z}
    ensures StaleKeys(ThreePorts(x, y, z, links), key.container, Restarted1(key)) == [key]
  {
    var probe := Restarted1(key).probe;
    SelectionFromFirst([x, y, z], key.container, probe);
    SelectionFromFirst([y, z], key.container, probe);
    SelectionFromFirst([z], key.container, probe);
    assert [x, y, z][1..] == [y, z] && [y, z][1..] == [z] && [z][1..] == [];
  }

  /** The left end of its first link and the right end of its second: the port takes c along, and then
      goes back to the VLAN of a without it. */
  lemma RestartSplitsOwnLink(a: Key, k: Key, c: Key)
    requires a != k && a != c && k != c
    ensures var s := ThreePorts(a, k, c, [Link("lab", k, c, 100), Link("lab", a, k, 100)]);
            var (s', errors) := Restart(s, k.container, "lab", Restarted1(k));
            Book(s) && BridgeAgrees(s) && TagsAgree(s) && errors == 0 && !TagsAgree(s')
  {
    var l1, l2 := Link("lab", k, c, 100), Link("lab", a, k, 100);
    var links, pairs := [l1, l2], [(k, c), (a, k)];
    assert links[1..] == [l2] && [l2][1..] == [];
    assert Connected([l2], k) == [(a, k)];
    assert Connected(links, k) == pairs;
    assert pairs[1].1 == k;
    OneIsStale(a, k, c, links, k);
    RestartSplits(a, k, c, links, k, pairs);
  }

  /** The left end of its only link: the port takes c along, and so off the VLAN of d, although c and d
      are healthy ports of other containers. */
  lemma RestartSplitsOthersLink(k: Key, c: Key, d: Key)
    requires k != c && k != d && c != d
    ensures var s := ThreePorts(k, c, d, [Link("lab", k, c, 100), Link("lab", c, d, 100)]);
            var (s', errors) := Restart(s, k.container, "lab", Restarted1(k));
            Book(s) && BridgeAgrees(s) && TagsAgree(s) && errors == 0 && !TagsAgree(s')
  {
    var l1, l2 := Link("lab", k, c, 100), Link("lab", c, d, 100);
    var links, pairs := [l1, l2], [(k, c)];
    assert links[1..] == [l2] && [l2][1..] == [];
    assert Connected([l2], k) == [];
    assert Connected(links, k) == pairs;
    assert l2 in links && (c, d) in Pairs(links);
    assert Other(pairs[0], k) == c && Neighbour(pairs, k, c) && !Neighbour(pairs, k, d);
    OneIsStale(k, c, d, links, k);
    RestartSplits(k, c, d, links, k, pairs);
  }

  // ---- The same for a single hot_connect ----

  /** Connecting two ports keeps all links working exactly when they were on one VLAN already or the
      second end has no link yet. */
  lemma ConnectKeepsLinksIff(s: Manager, a: Key, b: Key, labId: string, ok: bool)
    requires Book(s) && TagsAgree(s) && HotConnect(s, a, b, labId, ok).1.Some?
    ensures TagsAgree(HotConnect(s, a, b, labId, ok).0)
            <==> s.ports[a].tag == s.ports[b].tag
                 || forall p :: p in Pairs(s.links) && PairTouches(p, b) ==> p == (b, b)
  {
    var s' := HotConnect(s, a, b, labId, ok).0;
    HotConnectConnects(s, a, b, labId, ok);
    assert Pairs(s'.links) == Pairs(s.links) + {(a, b)};
    forall p | p in Pairs(s.links)
      ensures OneVlan(s', p) <==> s.ports[a].tag == s.ports[b].tag || !PairTouches(p, b) || p == (b, b)
    {
      assert OneVlan(s, p);
    }
    assert OneVlan(s', (a, b));
  }
}
