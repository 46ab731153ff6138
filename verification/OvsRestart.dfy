/** A container restart gives back the same topology. */
module OvsRestart {
  import opened Wrappers
  import opened VlanPools
  import opened OvsProvision
  import opened OvsBookkeeping

  /** The linked port pairs. */
  function Pairs(links: seq<Link>): set<(Key, Key)> { set l | l in links :: (l.a, l.b) }

  predicate PairTouches(p: (Key, Key), key: Key) { p.0 == key || p.1 == key }

  lemma PairsAfterAdd(links: seq<Link>, l: Link)
    ensures Pairs(AddLink(links, l)) == Pairs(links) + {(l.a, l.b)}
  {
    AddLinkMembers(links, l);
    forall m | m in links ensures (m.a, m.b) in Pairs(AddLink(links, l)) {
      if m !in AddLink(links, l) { assert SameLink(m, l); }
    }
  }

  lemma PairsAfterForget(links: seq<Link>, key: Key)
    ensures Pairs(LinksWithout(links, key)) == set p | p in Pairs(links) && !PairTouches(p, key)
  {
    LinksWithoutMembers(links, key);
    forall p | p in Pairs(links) && !PairTouches(p, key) ensures p in Pairs(LinksWithout(links, key)) {
      var l :| l in links && (l.a, l.b) == p;
      assert l in LinksWithout(links, key);
    }
  }

  lemma {:induction false} ConnectedMembers(links: seq<Link>, key: Key)
    ensures forall p :: p in Connected(links, key) <==> p in Pairs(links) && PairTouches(p, key)
  {
    if links != [] {
      ConnectedMembers(links[1..], key);
      assert links == [links[0]] + links[1..];
      assert Pairs(links) == {(links[0].a, links[0].b)} + Pairs(links[1..]);
    }
  }

  // ---- Reconnecting ----

  /** Nothing but the tag of a port differs. */
  predicate SamePort(p: Port, q: Port) { p.(tag := 0) == q.(tag := 0) }

  /** The same ports, up to their tags. */
  ghost predicate SamePorts(s: Manager, s': Manager) {
    s'.ports.Keys == s.ports.Keys && forall q :: q in s.ports ==> SamePort(s'.ports[q], s.ports[q])
  }

  /** What one successful hot_connect of the pair `p` does. */
  ghost predicate Connects(s: Manager, s': Manager, p: (Key, Key)) {
    && SamePorts(s, s') && Pairs(s'.links) == Pairs(s.links) + {p}
    && p.0 in s.ports && p.1 in s.ports && s'.ports[p.0].tag == s'.ports[p.1].tag == s.ports[p.0].tag
    && forall k :: k in s.ports && k != p.1 ==> s'.ports[k].tag == s.ports[k].tag
  }

  lemma HotConnectConnects(s: Manager, a: Key, b: Key, labId: string, ok: bool)
    requires Book(s)
    ensures var (s', tag) := HotConnect(s, a, b, labId, ok);
            Book(s') && (tag == None ==> s' == s) && (tag.Some? ==> Connects(s, s', (a, b)))
  {
    HotConnectContract(s, a, b, labId, ok);
    if a in s.ports && b in s.ports {
      PairsAfterAdd(s.links, Link(if labId == "" then s.ports[a].labId else labId, a, b, s.ports[a].tag));
    }
  }

  /** What `errors` failures and otherwise successful reconnections of the first `k` pairs leave. */
  ghost predicate Reconnected(s: Manager, s': Manager, pairs: seq<(Key, Key)>, k: nat, errors: nat)
    requires k <= |pairs|
  {
    Book(s') && SamePorts(s, s') && (errors == 0 ==> Pairs(s'.links) == Pairs(s.links) + (set p | p in pairs[..k]))
  }

  lemma ReconnectedStep(s: Manager, s1: Manager, s2: Manager, pairs: seq<(Key, Key)>, k: nat, errors: nat)
    requires 0 < k <= |pairs| && Reconnected(s, s1, pairs, k - 1, errors) && Book(s2)
    ensures s2 == s1 ==> Reconnected(s, s2, pairs, k, errors + 1)
    ensures Connects(s1, s2, pairs[k - 1]) ==> Reconnected(s, s2, pairs, k, errors)
  {
    assert pairs[..k] == pairs[..k - 1] + [pairs[k - 1]];
  }

  lemma {:induction false} ReconnectFrame(s: Manager, pairs: seq<(Key, Key)>, labId: string, ok: nat -> bool, k: nat)
    requires Book(s) && k <= |pairs|
    ensures var (s', errors) := Reconnect(s, pairs, labId, ok, k); Reconnected(s, s', pairs, k, errors)
  {
    if k > 0 {
      ReconnectFrame(s, pairs, labId, ok, k - 1);
      var (s1, errors) := Reconnect(s, pairs, labId, ok, k - 1);
      var (a, b) := pairs[k - 1];
      HotConnectConnects(s1, a, b, labId, ok(k - 1));
      ReconnectedStep(s, s1, HotConnect(s1, a, b, labId, ok(k - 1)).0, pairs, k, errors);
    } else {
      assert pairs[..0] == [];
    }
  }

  // ---- One stale port ----

  /** Ports and linked pairs of two states are the same. */
  ghost predicate SameTopology(s: Manager, s': Manager) {
    s'.ports.Keys == s.ports.Keys && Pairs(s'.links) == Pairs(s.links)
  }

  /** From `s` to `s'` the port `key` was cleaned up and, if `built`, provisioned anew. */
  ghost predicate Rebuilt(s: Manager, s': Manager, key: Key, labId: string, built: bool) {
    && Book(s')
    && Pairs(s'.links) == (set p | p in Pairs(s.links) && !PairTouches(p, key))
    && (forall q :: q in s.ports && q != key ==> q in s'.ports && s'.ports[q] == s.ports[q])
    && (forall q :: q in s'.ports && q != key ==> q in s.ports)
    && (built <==> key in s'.ports)
    && (built ==> s'.ports[key].labId == labId && s'.ports[key].nodeName == None)
  }

  lemma CleanupAndProvision(s: Manager, key: Key, portName: string, labId: string, delPort: bool, rc: ProvisionRc)
    requires Book(s)
    ensures var (s', tag) := Provision(CleanupStale(s, key, portName, delPort), key, labId, None, rc);
            Rebuilt(s, s', key, labId, tag.Some?)
  {
    var s0 := s.(bridge := DelPort(s.bridge, portName, delPort));
    ForgetKeepsBook(s0, key);
    PairsAfterForget(s.links, key);
    ProvisionContract(CleanupStale(s, key, portName, delPort), key, labId, None, rc);
  }

  /** Reprovision as "rebuild, then reconnect". */
  lemma ReprovisionUnfolded(s: Manager, key: Key, portName: string, pairs: seq<(Key, Key)>, labId: string, i: nat,
                            env: RestartEnv)
    returns (s2: Manager, built: bool)
    requires Book(s)
    ensures Rebuilt(s, s2, key, labId, built)
    ensures Reprovision(s, key, portName, pairs, labId, i, env)
         == if built then Reconnect(s2, pairs, labId, env.connect(i), |pairs|) else (s2, 1)
  {
    CleanupAndProvision(s, key, portName, labId, env.delPort(i), env.provision(i));
    var (s', tag) := Provision(CleanupStale(s, key, portName, env.delPort(i)), key, labId, None, env.provision(i));
    s2, built := s', tag.Some?;
  }

  /** What handling one stale port leaves: the others keep everything but their tags; without an
      error ports and pairs are those of before. */
  ghost predicate Reprovisioned(s: Manager, s': Manager, key: Key, labId: string, errors: nat) {
    && Book(s')
    && (forall q :: q in s.ports && q != key ==> q in s'.ports && SamePort(s'.ports[q], s.ports[q]))
    && (errors == 0 ==>
          SameTopology(s, s') && key in s'.ports && s'.ports[key].labId == labId && s'.ports[key].nodeName == None)
  }

  /** The pairs to restore are exactly those on the port. */
  ghost predicate AllPairsOf(s: Manager, key: Key, pairs: seq<(Key, Key)>) {
    forall p :: p in pairs <==> p in Pairs(s.links) && PairTouches(p, key)
  }

  lemma RebuiltAndReconnected(s: Manager, s2: Manager, s': Manager, key: Key, labId: string, pairs: seq<(Key, Key)>,
                              errors: nat)
    requires key in s.ports && AllPairsOf(s, key, pairs)
    requires Rebuilt(s, s2, key, labId, true) && Reconnected(s2, s', pairs, |pairs|, errors)
    ensures Reprovisioned(s, s', key, labId, errors)
  {
    assert pairs[..|pairs|] == pairs;
    forall q | q in s.ports && q != key ensures SamePort(s'.ports[q], s.ports[q]) {
      assert SamePort(s'.ports[q], s2.ports[q]);
    }
    assert SamePort(s'.ports[key], s2.ports[key]);
    assert s2.ports.Keys == s.ports.Keys;
  }

  lemma ReprovisionContract(s: Manager, key: Key, portName: string, pairs: seq<(Key, Key)>, labId: string, i: nat,
                            env: RestartEnv)
    requires Book(s)
    ensures var (s', errors) := Reprovision(s, key, portName, pairs, labId, i, env);
            && (key in s.ports && AllPairsOf(s, key, pairs) ==> Reprovisioned(s, s', key, labId, errors))
            && Book(s')
            && (forall q :: q in s.ports && q != key ==> q in s'.ports && SamePort(s'.ports[q], s.ports[q]))
  {
    var s2, built := ReprovisionUnfolded(s, key, portName, pairs, labId, i, env);
    if built {
      ReconnectFrame(s2, pairs, labId, env.connect(i), |pairs|);
      var (s', errors) := Reconnect(s2, pairs, labId, env.connect(i), |pairs|);
      assert forall q :: q in s.ports && q != key ==> SamePort(s'.ports[q], s2.ports[q]);
      if key in s.ports && AllPairsOf(s, key, pairs) {
        RebuiltAndReconnected(s, s2, s', key, labId, pairs, errors);
      }
    }
  }

  // ---- The whole restart ----

  /** What handling the first `k` stale ports leaves. */
  ghost predicate Restarted(s: Manager, s': Manager, stale: seq<Key>, k: nat, errors: nat)
    requires k <= |stale|
  {
    && Book(s') && (errors == 0 ==> SameTopology(s, s'))
    && (errors == 0 && TagsAgree(s) && PointToPoint(Pairs(s.links)) ==> TagsAgree(s'))
    && (forall q :: q in s.ports && q !in stale[..k] ==> q in s'.ports && SamePort(s'.ports[q], s.ports[q]))
  }

  lemma RestartedStep(s: Manager, s1: Manager, s2: Manager, stale: seq<Key>, k: nat, errors: nat, more: nat,
                      labId: string)
    requires 0 < k <= |stale| && Restarted(s, s1, stale, k - 1, errors) && Book(s2)
    requires forall q :: q in s1.ports && q != stale[k - 1] ==> q in s2.ports && SamePort(s2.ports[q], s1.ports[q])
    requires SameTopology(s, s1) && more == 0 ==> SameTopology(s, s2)
    requires SameTopology(s, s1) && more == 0 && TagsAgree(s1) && PointToPoint(Pairs(s.links)) ==> TagsAgree(s2)
    ensures Restarted(s, s2, stale, k, errors + more)
  {
    forall q | q in s.ports && q !in stale[..k] ensures q in s2.ports && SamePort(s2.ports[q], s.ports[q]) {
      assert stale[..k] == stale[..k - 1] + [stale[k - 1]];
      assert q !in stale[..k - 1] && q != stale[k - 1];
    }
  }

  /** One stale port of a restart that began in `s` and has come to `s1`. */
  lemma StaleStep(s: Manager, s1: Manager, stale: seq<Key>, k: nat, errors: nat, labId: string, env: RestartEnv)
    requires k < |stale| && stale[k] in s.ports && Restarted(s, s1, stale, k, errors)
    ensures var (s2, more) := StaleRound(s, stale, labId, env)(s1, k); Restarted(s, s2, stale, k + 1, errors + more)
  {
    var key := stale[k];
    var pairs := Connected(s.links, key);
    ConnectedMembers(s.links, key);
    ReprovisionContract(s1, key, s.ports[key].portName, pairs, labId, k, env);
    if SameTopology(s, s1) && TagsAgree(s1) && PointToPoint(Pairs(s.links)) {
      ReprovisionTags(s1, key, s.ports[key].portName, pairs, labId, k, env);
    }
    var (s2, more) := Reprovision(s1, key, s.ports[key].portName, pairs, labId, k, env);
    RestartedStep(s, s1, s2, stale, k + 1, errors, more, labId);
  }

  /** What every round keeps holds after all rounds. */
  lemma {:induction false} IterateKeeps(s: Manager, round: (Manager, nat) -> (Manager, nat), n: nat, k: nat,
                                        P: (Manager, nat, nat) -> bool)
    requires k <= n && P(s, 0, 0)
    requires forall m: Manager, i: nat, e: nat :: i < n && P(m, i, e) ==> P(round(m, i).0, i + 1, e + round(m, i).1)
    ensures P(Iterate(s, round, k).0, k, Iterate(s, round, k).1)
  {
    if k > 0 { IterateKeeps(s, round, n, k - 1, P); }
  }

  lemma StalePorts(s: Manager, stale: seq<Key>, labId: string, env: RestartEnv, k: nat)
    requires Book(s) && k <= |stale| && forall i :: 0 <= i < |stale| ==> stale[i] in s.ports
    ensures var (s', errors) := Iterate(s, StaleRound(s, stale, labId, env), k); Restarted(s, s', stale, k, errors)
  {
    var round := StaleRound(s, stale, labId, env);
    var P := (m: Manager, i: nat, e: nat) => i <= |stale| && Restarted(s, m, stale, i, e);
    forall m: Manager, i: nat, e: nat | i < |stale| && P(m, i, e) ensures P(round(m, i).0, i + 1, e + round(m, i).1) {
      StaleStep(s, m, stale, i, e, labId, env);
    }
    IterateKeeps(s, round, |stale|, k, P);
  }

  /** Restart preserves topology.  If handle_container_restart ends without an error, the tracked
      ports and the linked pairs are the same as before, links between two stale ports of the same
      container included.  With or without errors the books stay in order and every port that was
      not stale keeps everything but, perhaps, its tag. */
  lemma RestartPreservesTopology(s: Manager, container: string, labId: string, env: RestartEnv)
    requires Book(s)
    ensures var (s', errors) := Restart(s, container, labId, env);
            && Book(s')
            && (errors == 0 ==> SameTopology(s, s'))
            && (forall q :: q in s.ports && (q.container != container || env.probe(q) != Stale) ==>
                  q in s'.ports && SamePort(s'.ports[q], s.ports[q]))
  {
    var stale := StaleKeys(s, container, env);
    StaleAreKeys(s.order, container, env.probe, Stale);
    StalePorts(s, stale, labId, env, |stale|);
    assert stale[..|stale|] == stale;
  }

  // ---- The links carry traffic again ----

  /** Both ends of the pair are tracked and on the same VLAN. */
  ghost predicate OneVlan(s: Manager, p: (Key, Key)) {
    p.0 in s.ports && p.1 in s.ports && s.ports[p.0].tag == s.ports[p.1].tag
  }

  /** Both ends of every link are on the same VLAN. */
  ghost predicate TagsAgree(s: Manager) {
    forall p :: p in Pairs(s.links) ==> OneVlan(s, p)
  }

  /** Point-to-point links: no port is an end of two different pairs. */
  ghost predicate PointToPoint(pairs: set<(Key, Key)>) {
    forall p, q :: p in pairs && q in pairs && p != q ==> !PairTouches(p, q.0) && !PairTouches(p, q.1)
  }

  /** All pairs but `p` agree, and they stay clear of the ends of `p`. */
  ghost predicate OthersAgree(s: Manager, p: (Key, Key)) {
    forall q :: q in Pairs(s.links) && q != p ==> OneVlan(s, q) && !PairTouches(q, p.0) && !PairTouches(q, p.1)
  }

  lemma ConnectKeepsOthers(s: Manager, s': Manager, p: (Key, Key))
    requires OthersAgree(s, p) && Connects(s, s', p)
    ensures OthersAgree(s', p) && OneVlan(s', p)
  {
  }

  lemma {:induction false} ReconnectTags(s: Manager, pairs: seq<(Key, Key)>, labId: string, ok: nat -> bool, k: nat,
                                         p: (Key, Key))
    requires Book(s) && k <= |pairs| && (forall i :: 0 <= i < |pairs| ==> pairs[i] == p) && OthersAgree(s, p)
    ensures var (s', errors) := Reconnect(s, pairs, labId, ok, k);
            Book(s') && (errors == 0 ==> OthersAgree(s', p) && (k > 0 ==> OneVlan(s', p)))
  {
    if k > 0 {
      ReconnectTags(s, pairs, labId, ok, k - 1, p);
      var (s1, errors) := Reconnect(s, pairs, labId, ok, k - 1);
      var (a, b) := pairs[k - 1];
      HotConnectConnects(s1, a, b, labId, ok(k - 1));
      var (s2, tag) := HotConnect(s1, a, b, labId, ok(k - 1));
      if errors == 0 && tag.Some? { ConnectKeepsOthers(s1, s2, p); }
    }
  }

  lemma RebuiltOthersAgree(s: Manager, s2: Manager, key: Key, labId: string)
    requires TagsAgree(s) && Rebuilt(s, s2, key, labId, true)
    ensures TagsAgree(s2)
    ensures PointToPoint(Pairs(s.links)) ==>
              forall p :: p in Pairs(s.links) && PairTouches(p, key) ==> OthersAgree(s2, p)
  {
    assert forall p :: p in Pairs(s2.links) ==> p in Pairs(s.links) && !PairTouches(p, key);
    assert forall p :: p in Pairs(s2.links) ==> OneVlan(s, p);
  }

  lemma OthersAndItself(s: Manager, p: (Key, Key))
    requires OthersAgree(s, p) && OneVlan(s, p)
    ensures TagsAgree(s)
  {
  }

  lemma ReprovisionTags(s: Manager, key: Key, portName: string, pairs: seq<(Key, Key)>, labId: string, i: nat,
                        env: RestartEnv)
    requires Book(s) && key in s.ports && TagsAgree(s) && PointToPoint(Pairs(s.links)) && AllPairsOf(s, key, pairs)
    ensures var (s', errors) := Reprovision(s, key, portName, pairs, labId, i, env);
            errors == 0 ==> TagsAgree(s')
  {
    var s2, built := ReprovisionUnfolded(s, key, portName, pairs, labId, i, env);
    if built {
      RebuiltOthersAgree(s, s2, key, labId);
      if |pairs| > 0 {
        var p := pairs[0];
        forall j | 0 <= j < |pairs| ensures pairs[j] == p { assert pairs[j] in pairs && p in pairs; }
        assert p in pairs;
        ReconnectTags(s2, pairs, labId, env.connect(i), |pairs|, p);
        var (s', errors) := Reconnect(s2, pairs, labId, env.connect(i), |pairs|);
        if errors == 0 { OthersAndItself(s', p); }
      }
    }
  }

  /** After an error-free restart every point-to-point link works again: its two ends share a VLAN,
      although the rebuilt ports got new tags and reservations moved. */
  lemma RestartReconnects(s: Manager, container: string, labId: string, env: RestartEnv)
    requires Book(s) && TagsAgree(s) && PointToPoint(Pairs(s.links))
    ensures var (s', errors) := Restart(s, container, labId, env); errors == 0 ==> TagsAgree(s')
  {
    StaleAreKeys(s.order, container, env.probe, Stale);
    StalePorts(s, StaleKeys(s, container, env), labId, env, |StaleKeys(s, container, env)|);
  }

  /** When a rebuilt port is the left end of one link and the right end of a later one, reconnecting in
      that order leaves the ends of the first link on different VLANs. */
  lemma LaterRightEndSplitsEarlierLink(s: Manager, a: Key, key: Key, c: Key, labId: string, ok: nat -> bool)
    requires Book(s) && a in s.ports && key in s.ports && c in s.ports && a != key && c != key && a != c
    requires s.ports[a].tag != s.ports[key].tag
    ensures var (s', errors) := Reconnect(s, [(key, c), (a, key)], labId, ok, 2);
            errors == 0 ==> (key, c) in Pairs(s'.links) && !OneVlan(s', (key, c))
  {
    var pairs := [(key, c), (a, key)];
    var (s1, tag1) := HotConnect(s, key, c, labId, ok(0));
    assert Reconnect(s, pairs, labId, ok, 0) == (s, 0);
    assert Reconnect(s, pairs, labId, ok, 1) == (s1, if tag1 == None then 1 else 0);
    HotConnectConnects(s, key, c, labId, ok(0));
    HotConnectConnects(s1, a, key, labId, ok(1));
  }
}
