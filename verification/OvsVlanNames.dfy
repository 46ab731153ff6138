/** Which VLAN every port is on after a container restart: hot_connect puts the second end of a pair on
    the VLAN of the first, so that the outcome can be told from the links alone. */
module OvsVlanNames {
  import opened Wrappers
  import opened VlanPools
  import opened OvsProvision
  import opened OvsBookkeeping
  import opened OvsRestart

  /** A VLAN by name: None for the one a port was on before the restart, Some(i) for the new one that
      the `i`-th stale port was given. */
  type Names = map<Key, Option<nat>>

  /** After connecting the pairs in order. */
  function Followed(v: Names, pairs: seq<(Key, Key)>): (v': Names)
    ensures v'.Keys == v.Keys
  {
    if pairs == [] then v
    else
      var f := Followed(v, pairs[..|pairs| - 1]);
      var (a, b) := pairs[|pairs| - 1];
      if a in f && b in f then f[b := f[a]] else f
  }

  /** After the first `k` stale ports were rebuilt and reconnected. */
  function NamesAfter(s: Manager, stale: seq<Key>, k: nat): (v: Names)
    requires k <= |stale|
    ensures v.Keys == s.ports.Keys
  {
    if k == 0 then map q | q in s.ports :: None
    else
      var before := NamesAfter(s, stale, k - 1);
      if stale[k - 1] in before then Followed(before[stale[k - 1] := Some(k - 1)], Connected(s.links, stale[k - 1]))
      else before
  }

  /** The ends of every link are on the VLAN of one name. */
  ghost predicate NamesAgree(s: Manager, v: Names) {
    forall p :: p in Pairs(s.links) && p.0 in v && p.1 in v ==> v[p.0] == v[p.1]
  }

  /** The tag a name stands for at a port. */
  function Value(s: Manager, given: nat -> int, q: Key, name: Option<nat>): int
    requires q in s.ports
  {
    match name
    case None => s.ports[q].tag
    case Some(i) => given(i)
  }

  /** In `m` every port of `s` is on the VLAN that its name stands for. */
  ghost predicate Carries(s: Manager, m: Manager, v: Names, given: nat -> int) {
    && m.ports.Keys == s.ports.Keys == v.Keys
    && forall q :: q in s.ports ==> m.ports[q].tag == Value(s, given, q, v[q])
  }

  lemma ConnectFollows(s: Manager, m: Manager, m': Manager, v: Names, given: nat -> int, p: (Key, Key))
    requires Carries(s, m, v, given) && Connects(m, m', p) && TagsAgree(s) && p in Pairs(s.links)
    ensures p.0 in v && p.1 in v && Carries(s, m', v[p.1 := v[p.0]], given)
  {
    assert OneVlan(s, p);
  }

  ghost predicate KeptByConnect(pairs: seq<(Key, Key)>, labId: string, ok: nat -> bool, P: (Manager, nat) -> bool) {
    forall m, i :: 0 <= i < |pairs| && P(m, i) && HotConnect(m, pairs[i].0, pairs[i].1, labId, ok(i)).1.Some? ==>
      P(HotConnect(m, pairs[i].0, pairs[i].1, labId, ok(i)).0, i + 1)
  }

  /** What every successful connection keeps holds after an error-free reconnection. */
  lemma {:induction false} ReconnectKeeps(m: Manager, pairs: seq<(Key, Key)>, labId: string, ok: nat -> bool, k: nat,
                                          P: (Manager, nat) -> bool)
    requires k <= |pairs| && P(m, 0) && KeptByConnect(pairs, labId, ok, P)
    ensures Reconnect(m, pairs, labId, ok, k).1 == 0 ==> P(Reconnect(m, pairs, labId, ok, k).0, k)
  {
    if k > 0 { ReconnectKeeps(m, pairs, labId, ok, k - 1, P); }
  }

  lemma FollowedOneMore(v: Names, pairs: seq<(Key, Key)>, k: nat)
    requires k < |pairs| && pairs[k].0 in v && pairs[k].1 in v
    ensures var f := Followed(v, pairs[..k]); Followed(v, pairs[..k + 1]) == f[pairs[k].1 := f[pairs[k].0]]
  {
    assert pairs[..k + 1][..k] == pairs[..k];
  }

  ghost predicate FollowedUpTo(s: Manager, m: Manager, pairs: seq<(Key, Key)>, k: nat, v: Names, given: nat -> int)
    requires k <= |pairs|
  {
    Book(m) && Carries(s, m, Followed(v, pairs[..k]), given)
  }

  lemma FollowsOneMore(s: Manager, m: Manager, pairs: seq<(Key, Key)>, labId: string, ok: bool, k: nat, v: Names,
                       given: nat -> int)
    requires k < |pairs| && TagsAgree(s) && pairs[k] in Pairs(s.links) && FollowedUpTo(s, m, pairs, k, v, given)
    requires HotConnect(m, pairs[k].0, pairs[k].1, labId, ok).1.Some?
    ensures FollowedUpTo(s, HotConnect(m, pairs[k].0, pairs[k].1, labId, ok).0, pairs, k + 1, v, given)
  {
    var m' := HotConnect(m, pairs[k].0, pairs[k].1, labId, ok).0;
    HotConnectConnects(m, pairs[k].0, pairs[k].1, labId, ok);
    ConnectFollows(s, m, m', Followed(v, pairs[..k]), given, pairs[k]);
    FollowedOneMore(v, pairs, k);
  }

  lemma ReconnectFollows(s: Manager, m: Manager, pairs: seq<(Key, Key)>, labId: string, ok: nat -> bool, v: Names,
                         given: nat -> int)
    requires Book(m) && TagsAgree(s) && Carries(s, m, v, given)
    requires forall i :: 0 <= i < |pairs| ==> pairs[i] in Pairs(s.links)
    ensures var (m', errors) := Reconnect(m, pairs, labId, ok, |pairs|);
            errors == 0 ==> Carries(s, m', Followed(v, pairs), given)
  {
    var P := (t: Manager, i: nat) => i <= |pairs| && FollowedUpTo(s, t, pairs, i, v, given);
    assert pairs[..0] == [] && pairs[..|pairs|] == pairs;
    forall t, i | 0 <= i < |pairs| && P(t, i) && HotConnect(t, pairs[i].0, pairs[i].1, labId, ok(i)).1.Some?
      ensures P(HotConnect(t, pairs[i].0, pairs[i].1, labId, ok(i)).0, i + 1)
    {
      FollowsOneMore(s, t, pairs, labId, ok(i), i, v, given);
    }
    ReconnectKeeps(m, pairs, labId, ok, |pairs|, P);
  }

  /** The tag given to the `i`-th stale port. */
  function GivenIn(m: Manager, key: Key, portName: string, labId: string, i: nat, env: RestartEnv): int {
    var (_, tag) := Provision(CleanupStale(m, key, portName, env.delPort(i)), key, labId, None, env.provision(i));
    if tag.Some? then tag.value else 0
  }

  function Given(s: Manager, stale: seq<Key>, labId: string, env: RestartEnv, i: nat): int {
    if i < |stale| && stale[i] in s.ports
    then GivenIn(Iterate(s, StaleRound(s, stale, labId, env), i).0, stale[i], s.ports[stale[i]].portName, labId, i, env)
    else 0
  }

  lemma ProvisionedTag(m: Manager, key: Key, labId: string, rc: ProvisionRc)
    requires Book(m) && key !in m.ports
    ensures var (m', tag) := Provision(m, key, labId, None, rc);
            tag.Some? ==> key in m'.ports && m'.ports[key].tag == tag.value
  {
    ProvisionContract(m, key, labId, None, rc);
  }

  lemma CleanedUp(m: Manager, key: Key, portName: string, ok: bool)
    requires Book(m)
    ensures Book(CleanupStale(m, key, portName, ok)) && key !in CleanupStale(m, key, portName, ok).ports
  {
    ForgetKeepsBook(m.(bridge := DelPort(m.bridge, portName, ok)), key);
  }

  lemma RebuiltCarries(s: Manager, m: Manager, m2: Manager, key: Key, labId: string, i: nat, v: Names,
                       given: nat -> int)
    requires key in s.ports && Carries(s, m, v, given) && Rebuilt(m, m2, key, labId, true)
    requires m2.ports[key].tag == given(i)
    ensures Carries(s, m2, v[key := Some(i)], given)
  {
  }

  /** One round: the stale port is on its new VLAN, and then every second end follows its first. */
  lemma ReprovisionFollows(s: Manager, m: Manager, key: Key, portName: string, pairs: seq<(Key, Key)>, labId: string,
                           i: nat, env: RestartEnv, v: Names, given: nat -> int)
    requires Book(m) && TagsAgree(s) && key in s.ports && Carries(s, m, v, given)
    requires forall j :: 0 <= j < |pairs| ==> pairs[j] in Pairs(s.links)
    requires given(i) == GivenIn(m, key, portName, labId, i, env)
    ensures var (m', errors) := Reprovision(m, key, portName, pairs, labId, i, env);
            errors == 0 ==> Carries(s, m', Followed(v[key := Some(i)], pairs), given)
  {
    var m1 := CleanupStale(m, key, portName, env.delPort(i));
    var (m2, tag) := Provision(m1, key, labId, None, env.provision(i));
    CleanupAndProvision(m, key, portName, labId, env.delPort(i), env.provision(i));
    if tag.Some? {
      CleanedUp(m, key, portName, env.delPort(i));
      ProvisionedTag(m1, key, labId, env.provision(i));
      RebuiltCarries(s, m, m2, key, labId, i, v, given);
      ReconnectFollows(s, m2, pairs, labId, env.connect(i), v[key := Some(i)], given);
    }
  }

  /** What the first `k` rounds leave when none had an error. */
  ghost predicate RoundsFollowed(s: Manager, stale: seq<Key>, labId: string, env: RestartEnv, m: Manager, k: nat)
    requires k <= |stale|
  {
    Carries(s, m, NamesAfter(s, stale, k), (i: nat) => Given(s, stale, labId, env, i))
  }

  lemma RoundFollows(s: Manager, stale: seq<Key>, labId: string, env: RestartEnv, m: Manager, k: nat)
    requires Book(m) && TagsAgree(s) && k < |stale| && forall i :: 0 <= i < |stale| ==> stale[i] in s.ports
    requires RoundsFollowed(s, stale, labId, env, m, k) && m == Iterate(s, StaleRound(s, stale, labId, env), k).0
    ensures var (m', more) := Round(s, stale, labId, env, m, k);
            more == 0 ==> RoundsFollowed(s, stale, labId, env, m', k + 1)
  {
    var pairs := Connected(s.links, stale[k]);
    ConnectedMembers(s.links, stale[k]);
    assert forall j :: 0 <= j < |pairs| ==> pairs[j] in pairs;
    ReprovisionFollows(s, m, stale[k], s.ports[stale[k]].portName, pairs, labId, k, env, NamesAfter(s, stale, k),
                       (i: nat) => Given(s, stale, labId, env, i));
  }

  lemma IterateOneMore(s: Manager, round: (Manager, nat) -> (Manager, nat), k: nat)
    ensures var (m, errors) := Iterate(s, round, k);
            Iterate(s, round, k + 1) == (round(m, k).0, errors + round(m, k).1)
  {
  }

  ghost predicate Following(s: Manager, stale: seq<Key>, labId: string, env: RestartEnv, m: Manager, i: nat, e: nat)
    requires i <= |stale| && forall j :: 0 <= j < |stale| ==> stale[j] in s.ports
  {
    && Book(m) && m == Iterate(s, StaleRound(s, stale, labId, env), i).0
    && (e == 0 ==> RoundsFollowed(s, stale, labId, env, m, i))
  }

  ghost predicate FollowingUpTo(s: Manager, stale: seq<Key>, labId: string, env: RestartEnv, k: nat)
    requires k <= |stale| && forall j :: 0 <= j < |stale| ==> stale[j] in s.ports
  {
    var (m, errors) := Iterate(s, StaleRound(s, stale, labId, env), k); Following(s, stale, labId, env, m, k, errors)
  }

  lemma FollowingFromStart(s: Manager, stale: seq<Key>, labId: string, env: RestartEnv)
    requires Book(s) && forall j :: 0 <= j < |stale| ==> stale[j] in s.ports
    ensures FollowingUpTo(s, stale, labId, env, 0)
  {
  }

  lemma FollowingNext(s: Manager, stale: seq<Key>, labId: string, env: RestartEnv, k: nat)
    requires TagsAgree(s) && k < |stale| && forall j :: 0 <= j < |stale| ==> stale[j] in s.ports
    requires FollowingUpTo(s, stale, labId, env, k)
    ensures FollowingUpTo(s, stale, labId, env, k + 1)
  {
    var (m, errors) := Iterate(s, StaleRound(s, stale, labId, env), k);
    FollowingOneMore(s, stale, labId, env, m, k, errors);
    IterateOneMore(s, StaleRound(s, stale, labId, env), k);
  }

  lemma FollowingOneMore(s: Manager, stale: seq<Key>, labId: string, env: RestartEnv, m: Manager, i: nat, e: nat)
    requires TagsAgree(s) && i < |stale| && forall j :: 0 <= j < |stale| ==> stale[j] in s.ports
    requires Following(s, stale, labId, env, m, i, e)
    ensures var (m', more) := StaleRound(s, stale, labId, env)(m, i);
            Following(s, stale, labId, env, m', i + 1, e + more)
  {
    ReprovisionContract(m, stale[i], s.ports[stale[i]].portName, Connected(s.links, stale[i]), labId, i, env);
    IterateOneMore(s, StaleRound(s, stale, labId, env), i);
    if e == 0 { RoundFollows(s, stale, labId, env, m, i); }
  }

  lemma {:induction false} RoundsFollow(s: Manager, stale: seq<Key>, labId: string, env: RestartEnv, k: nat)
    requires Book(s) && TagsAgree(s) && k <= |stale| && forall i :: 0 <= i < |stale| ==> stale[i] in s.ports
    ensures FollowingUpTo(s, stale, labId, env, k)
  {
    if k == 0 {
      FollowingFromStart(s, stale, labId, env);
    } else {
      RoundsFollow(s, stale, labId, env, k - 1);
      FollowingNext(s, stale, labId, env, k - 1);
    }
  }

  // ---- Which links work after a restart ----

  /** The ends of every link are on one VLAN by the tags that their names stand for. */
  ghost predicate ValuesAgree(s: Manager, v: Names, given: nat -> int)
    requires v.Keys == s.ports.Keys
  {
    forall p :: p in Pairs(s.links) && p.0 in v && p.1 in v ==>
      Value(s, given, p.0, v[p.0]) == Value(s, given, p.1, v[p.1])
  }

  lemma CarriedAgree(s: Manager, m: Manager, v: Names, given: nat -> int)
    requires LinksTracked(s) && Carries(s, m, v, given) && Pairs(m.links) == Pairs(s.links)
    ensures TagsAgree(m) <==> ValuesAgree(s, v, given)
  {
    forall p | p in Pairs(s.links) ensures p.0 in s.ports && p.1 in s.ports && p.0 in m.ports && p.1 in m.ports
      ensures OneVlan(m, p) <==> Value(s, given, p.0, v[p.0]) == Value(s, given, p.1, v[p.1])
    {
    }
  }

  /** After an error-free restart every port is on the VLAN of its name, and all links work exactly when
      the names at their two ends stand for the same tag. */
  lemma RestartVlans(s: Manager, container: string, labId: string, env: RestartEnv)
    requires Book(s) && TagsAgree(s)
    ensures var stale := StaleKeys(s, container, env);
            var (s', errors) := Restart(s, container, labId, env);
            errors == 0 ==>
              && RoundsFollowed(s, stale, labId, env, s', |stale|)
              && (TagsAgree(s') <==>
                  ValuesAgree(s, NamesAfter(s, stale, |stale|), (i: nat) => Given(s, stale, labId, env, i)))
  {
    var stale := StaleKeys(s, container, env);
    var (s', errors) := Restart(s, container, labId, env);
    StaleTracked(s, container, env);
    RoundsFollow(s, stale, labId, env, |stale|);
    RestartPreservesTopology(s, container, labId, env);
    if errors == 0 {
      CarriedAgree(s, s', NamesAfter(s, stale, |stale|), (i: nat) => Given(s, stale, labId, env, i));
    }
  }

  /** The new tags differ from each other and from every tag carried before. */
  ghost predicate NewTags(s: Manager, n: nat, given: nat -> int) {
    && (forall i, q :: 0 <= i < n && q in s.ports ==> given(i) != s.ports[q].tag)
    && (forall i, j :: 0 <= i < j < n ==> given(i) != given(j))
  }

  ghost predicate NamesBelow(v: Names, n: nat) { forall q :: q in v && v[q].Some? ==> v[q].value < n }

  lemma {:induction false} FollowedBelow(v: Names, pairs: seq<(Key, Key)>, n: nat)
    requires NamesBelow(v, n)
    ensures NamesBelow(Followed(v, pairs), n)
  {
    if pairs != [] { FollowedBelow(v, pairs[..|pairs| - 1], n); }
  }

  lemma {:induction false} AllNamesBelow(s: Manager, stale: seq<Key>, k: nat)
    requires k <= |stale|
    ensures NamesBelow(NamesAfter(s, stale, k), k)
  {
    if k > 0 {
      AllNamesBelow(s, stale, k - 1);
      var before := NamesAfter(s, stale, k - 1);
      if stale[k - 1] in before {
        assert NamesBelow(before[stale[k - 1] := Some(k - 1)], k);
        FollowedBelow(before[stale[k - 1] := Some(k - 1)], Connected(s.links, stale[k - 1]), k);
      }
    }
  }

  /** Names that agree stand for tags that agree; with new tags also the other way round. */
  lemma NamesAndValues(s: Manager, v: Names, given: nat -> int, n: nat)
    requires TagsAgree(s) && v.Keys == s.ports.Keys && NamesBelow(v, n)
    ensures NamesAgree(s, v) ==> ValuesAgree(s, v, given)
    ensures NewTags(s, n, given) && ValuesAgree(s, v, given) ==> NamesAgree(s, v)
  {
    forall p | p in Pairs(s.links) && p.0 in v && p.1 in v
      ensures v[p.0] == v[p.1] ==> Value(s, given, p.0, v[p.0]) == Value(s, given, p.1, v[p.1])
      ensures NewTags(s, n, given) && Value(s, given, p.0, v[p.0]) == Value(s, given, p.1, v[p.1]) ==> v[p.0] == v[p.1]
    {
      assert OneVlan(s, p);
      if NewTags(s, n, given) && v[p.0].Some? && v[p.1].Some? {
        var i, j := v[p.0].value, v[p.1].value;
        assert i < j ==> given(i) != given(j);
        assert j < i ==> given(j) != given(i);
      }
    }
  }

  // ---- The tags that are handed out ----

  /** No port carries a tag at or above the cursor, and `n` tags are left above it. */
  ghost predicate CursorAhead(s: Manager, n: nat) {
    (forall q :: q in s.ports ==> s.ports[q].tag < s.vlans.next) && s.vlans.next + n <= VLAN_END + 1
  }

  /** After `i` rounds from cursor `next`. */
  ghost predicate AheadAfter(m: Manager, next: int, i: nat, n: nat) {
    && Book(m) && (forall q :: q in m.ports ==> m.ports[q].tag < next + i)
    && (i < n ==> m.vlans.next == next + i)
  }

  lemma AllocatesNext(v: Allocator, key: Key, next: int)
    requires VLAN_START <= next <= VLAN_END && v.next == next && key !in v.tags
    requires forall k :: k in v.tags ==> v.tags[k] < next
    ensures AllocateTag(v, key).1 == Some(next)
    ensures next < VLAN_END ==> AllocateTag(v, key).0.next == next + 1
  {
    assert next !in v.tags.Values;
  }

  lemma CleanupForgets(m: Manager, key: Key, portName: string, ok: bool)
    requires Book(m)
    ensures var m1 := CleanupStale(m, key, portName, ok);
            && Book(m1) && key !in m1.ports && key !in m1.vlans.tags && m1.vlans.next == m.vlans.next
            && forall q :: q in m1.ports ==> q in m.ports && m1.ports[q] == m.ports[q]
  {
    CleanedUp(m, key, portName, ok);
  }

  lemma ProvisionsNext(m: Manager, key: Key, labId: string, rc: ProvisionRc, next: int, i: nat, n: nat)
    requires AheadAfter(m, next, i, n) && i < n && VLAN_START <= next && next + n <= VLAN_END + 1
    requires key !in m.ports && key !in m.vlans.tags
    ensures var (m', tag) := Provision(m, key, labId, None, rc);
            tag.Some? ==> tag.value == next + i && AheadAfter(m', next, i + 1, n)
  {
    AllocatesNext(m.vlans, key, next + i);
    ProvisionContract(m, key, labId, None, rc);
  }

  lemma ReconnectsBelow(m: Manager, pairs: seq<(Key, Key)>, labId: string, ok: nat -> bool, next: int, i: nat, n: nat)
    requires AheadAfter(m, next, i, n)
    ensures var (m', errors) := Reconnect(m, pairs, labId, ok, |pairs|); errors == 0 ==> AheadAfter(m', next, i, n)
  {
    var P := (t: Manager, j: nat) => AheadAfter(t, next, i, n);
    forall t, j | 0 <= j < |pairs| && P(t, j) && HotConnect(t, pairs[j].0, pairs[j].1, labId, ok(j)).1.Some?
      ensures P(HotConnect(t, pairs[j].0, pairs[j].1, labId, ok(j)).0, j + 1)
    {
      HotConnectConnects(t, pairs[j].0, pairs[j].1, labId, ok(j));
    }
    ReconnectKeeps(m, pairs, labId, ok, |pairs|, P);
  }

  lemma ReprovisionsNext(m: Manager, key: Key, portName: string, pairs: seq<(Key, Key)>, labId: string, i: nat,
                         env: RestartEnv, next: int, n: nat)
    requires AheadAfter(m, next, i, n) && i < n && VLAN_START <= next && next + n <= VLAN_END + 1
    ensures var (m', errors) := Reprovision(m, key, portName, pairs, labId, i, env);
            errors == 0 ==> GivenIn(m, key, portName, labId, i, env) == next + i && AheadAfter(m', next, i + 1, n)
  {
    var m1 := CleanupStale(m, key, portName, env.delPort(i));
    CleanupForgets(m, key, portName, env.delPort(i));
    ProvisionsNext(m1, key, labId, env.provision(i), next, i, n);
    var (m2, tag) := Provision(m1, key, labId, None, env.provision(i));
    if tag.Some? { ReconnectsBelow(m2, pairs, labId, env.connect(i), next, i + 1, n); }
  }

  /** With the cursor ahead and no error, the first `k` stale ports were given the next tags in turn. */
  ghost predicate InTurn(s: Manager, stale: seq<Key>, labId: string, env: RestartEnv, m: Manager, k: nat)
    requires k <= |stale|
  {
    && m == Iterate(s, StaleRound(s, stale, labId, env), k).0 && AheadAfter(m, s.vlans.next, k, |stale|)
    && forall i :: 0 <= i < k ==> Given(s, stale, labId, env, i) == s.vlans.next + i
  }

  lemma InTurnOneMore(s: Manager, stale: seq<Key>, labId: string, env: RestartEnv, m: Manager, k: nat)
    requires k < |stale| && stale[k] in s.ports && InTurn(s, stale, labId, env, m, k)
    requires VLAN_START <= s.vlans.next && s.vlans.next + |stale| <= VLAN_END + 1
    ensures var (m', more) := StaleRound(s, stale, labId, env)(m, k);
            more == 0 ==> InTurn(s, stale, labId, env, m', k + 1)
  {
    RoundReprovisions(s, stale, labId, env, m, k);
    ReprovisionsNext(m, stale[k], s.ports[stale[k]].portName, Connected(s.links, stale[k]), labId, k, env, s.vlans.next,
                     |stale|);
    IterateOneMore(s, StaleRound(s, stale, labId, env), k);
    var (m', more) := StaleRound(s, stale, labId, env)(m, k);
    if more == 0 {
      forall i | 0 <= i < k + 1 ensures Given(s, stale, labId, env, i) == s.vlans.next + i {
        if i < k { assert InTurn(s, stale, labId, env, m, k); }
      }
    }
  }

  lemma RoundReprovisions(s: Manager, stale: seq<Key>, labId: string, env: RestartEnv, m: Manager, k: nat)
    requires k < |stale| && stale[k] in s.ports && m == Iterate(s, StaleRound(s, stale, labId, env), k).0
    ensures var portName := s.ports[stale[k]].portName;
            && StaleRound(s, stale, labId, env)(m, k)
               == Reprovision(m, stale[k], portName, Connected(s.links, stale[k]), labId, k, env)
            && Given(s, stale, labId, env, k) == GivenIn(m, stale[k], portName, labId, k, env)
  {
  }

  ghost predicate InTurnUpTo(s: Manager, stale: seq<Key>, labId: string, env: RestartEnv, k: nat)
    requires k <= |stale|
  {
    var (m, errors) := Iterate(s, StaleRound(s, stale, labId, env), k);
    errors == 0 ==> InTurn(s, stale, labId, env, m, k)
  }

  lemma InTurnAtStart(s: Manager, stale: seq<Key>, labId: string, env: RestartEnv)
    requires Book(s) && CursorAhead(s, |stale|)
    ensures InTurnUpTo(s, stale, labId, env, 0)
  {
  }

  lemma InTurnNext(s: Manager, stale: seq<Key>, labId: string, env: RestartEnv, k: nat)
    requires k < |stale| && stale[k] in s.ports && VLAN_START <= s.vlans.next && s.vlans.next + |stale| <= VLAN_END + 1
    requires InTurnUpTo(s, stale, labId, env, k)
    ensures InTurnUpTo(s, stale, labId, env, k + 1)
  {
    var (m, errors) := Iterate(s, StaleRound(s, stale, labId, env), k);
    IterateOneMore(s, StaleRound(s, stale, labId, env), k);
    if errors == 0 { InTurnOneMore(s, stale, labId, env, m, k); }
  }

  lemma {:induction false} GivenInTurn(s: Manager, stale: seq<Key>, labId: string, env: RestartEnv, k: nat)
    requires Book(s) && CursorAhead(s, |stale|) && k <= |stale| && forall i :: 0 <= i < |stale| ==> stale[i] in s.ports
    ensures InTurnUpTo(s, stale, labId, env, k)
  {
    if k == 0 {
      InTurnAtStart(s, stale, labId, env);
    } else {
      GivenInTurn(s, stale, labId, env, k - 1);
      InTurnNext(s, stale, labId, env, k - 1);
    }
  }

  lemma StaleTracked(s: Manager, container: string, env: RestartEnv)
    requires WellOrdered(s)
    ensures var stale := StaleKeys(s, container, env); forall i :: 0 <= i < |stale| ==> stale[i] in s.ports
  {
    StaleAreKeys(s.order, container, env.probe, Stale);
    var stale := StaleKeys(s, container, env);
    assert forall i :: 0 <= i < |stale| ==> stale[i] in stale;
  }

  lemma TurnsAreNew(s: Manager, stale: seq<Key>, labId: string, env: RestartEnv, m: Manager)
    requires CursorAhead(s, |stale|) && InTurn(s, stale, labId, env, m, |stale|)
    ensures NewTags(s, |stale|, (i: nat) => Given(s, stale, labId, env, i))
  {
  }

  /** Links whose ends have one name work after an error-free restart; with the cursor ahead these are
      the only ones, so that the links and the stale ports alone tell whether all links work. */
  lemma RestartReconnectsIff(s: Manager, container: string, labId: string, env: RestartEnv)
    requires Book(s) && TagsAgree(s)
    ensures var stale := StaleKeys(s, container, env);
            var (s', errors) := Restart(s, container, labId, env);
            errors == 0 ==>
              && (NamesAgree(s, NamesAfter(s, stale, |stale|)) ==> TagsAgree(s'))
              && (CursorAhead(s, |stale|) && TagsAgree(s') ==> NamesAgree(s, NamesAfter(s, stale, |stale|)))
  {
    var stale := StaleKeys(s, container, env);
    StaleTracked(s, container, env);
    RestartVlans(s, container, labId, env);
    if Restart(s, container, labId, env).1 == 0 {
      AllNamesBelow(s, stale, |stale|);
      NamesAndValues(s, NamesAfter(s, stale, |stale|), (i: nat) => Given(s, stale, labId, env, i), |stale|);
      if CursorAhead(s, |stale|) {
        GivenInTurn(s, stale, labId, env, |stale|);
        TurnsAreNew(s, stale, labId, env, Iterate(s, StaleRound(s, stale, labId, env), |stale|).0);
      }
    }
  }
}
