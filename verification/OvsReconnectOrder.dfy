/** When the links of a rebuilt port work again: the order and orientation of its links decide. */
module OvsReconnectOrder {
  import opened Wrappers
  import opened VlanPools
  import opened OvsProvision
  import opened OvsBookkeeping
  import opened OvsRestart
  import opened OvsVlanNames

  function Other(p: (Key, Key), key: Key): Key { if p.0 == key then p.1 else p.0 }

  /** Each pair joins `key` to a port of its own. */
  ghost predicate DistinctNeighbours(pairs: seq<(Key, Key)>, key: Key) {
    && (forall i :: 0 <= i < |pairs| ==> PairTouches(pairs[i], key) && pairs[i].0 != pairs[i].1)
    && forall i, j :: 0 <= i < j < |pairs| ==> Other(pairs[i], key) != Other(pairs[j], key)
  }

  ghost predicate IsRightEnd(pairs: seq<(Key, Key)>, key: Key) { exists i :: 0 <= i < |pairs| && pairs[i].1 == key }

  ghost predicate Neighbour(pairs: seq<(Key, Key)>, key: Key, q: Key) {
    exists i :: 0 <= i < |pairs| && Other(pairs[i], key) == q
  }

  /** No link between other ports has exactly one neighbour of `key` as an end. */
  ghost predicate NeighboursClosed(s: Manager, pairs: seq<(Key, Key)>, key: Key) {
    forall p :: p in Pairs(s.links) && !PairTouches(p, key) ==>
      (Neighbour(pairs, key, p.0) <==> Neighbour(pairs, key, p.1))
  }

  ghost predicate Known(v: Names, pairs: seq<(Key, Key)>) {
    forall i :: 0 <= i < |pairs| ==> pairs[i].0 in v && pairs[i].1 in v
  }

  ghost predicate AllOld(v: Names) { forall q :: q in v ==> v[q] == None }

  /** `key` alone is on its new VLAN. */
  ghost predicate OnlyNew(v: Names, key: Key) {
    key in v && forall q :: q in v ==> v[q] == if q == key then Some(0) else None
  }

  /** As right end of its first link the port goes back to the old VLAN at once, and nothing moves. */
  lemma {:induction false} RightEndFirst(v: Names, pairs: seq<(Key, Key)>, key: Key, k: nat)
    requires OnlyNew(v, key) && Known(v, pairs) && 0 < k <= |pairs| && pairs[0].1 == key && pairs[0].0 != key
    ensures AllOld(Followed(v, pairs[..k]))
  {
    FollowedOneMore(v, pairs, k - 1);
    if k > 1 {
      RightEndFirst(v, pairs, key, k - 1);
    } else {
      assert pairs[..0] == [];
    }
  }

  /** `key` and its first `k` neighbours are on the new VLAN, all else on the old ones. */
  ghost predicate MovedAlong(f: Names, pairs: seq<(Key, Key)>, key: Key, k: nat)
    requires k <= |pairs|
  {
    forall q :: q in f ==> f[q] == if q == key || Neighbour(pairs[..k], key, q) then Some(0) else None
  }

  lemma NeighboursOneMore(pairs: seq<(Key, Key)>, key: Key, k: nat, q: Key)
    requires k < |pairs|
    ensures Neighbour(pairs[..k + 1], key, q) <==> Neighbour(pairs[..k], key, q) || q == Other(pairs[k], key)
  {
    var before, now := pairs[..k], pairs[..k + 1];
    if Neighbour(before, key, q) {
      var i :| 0 <= i < |before| && Other(before[i], key) == q;
      assert Other(now[i], key) == q;
    }
    assert Other(now[k], key) == Other(pairs[k], key);
  }

  lemma MovedOneMore(f: Names, pairs: seq<(Key, Key)>, key: Key, k: nat)
    requires k < |pairs| && key in f && Known(f, pairs) && MovedAlong(f, pairs, key, k) && pairs[k].0 == key
    ensures MovedAlong(f[pairs[k].1 := f[pairs[k].0]], pairs, key, k + 1)
  {
    forall q | q in f ensures Neighbour(pairs[..k + 1], key, q) <==> Neighbour(pairs[..k], key, q) || q == pairs[k].1 {
      NeighboursOneMore(pairs, key, k, q);
    }
  }

  /** As left end the port takes its neighbours along. */
  lemma {:induction false} LeftEndsMove(v: Names, pairs: seq<(Key, Key)>, key: Key, k: nat)
    requires OnlyNew(v, key) && Known(v, pairs) && k <= |pairs| && DistinctNeighbours(pairs, key)
    requires forall i :: 0 <= i < k ==> pairs[i].1 != key
    ensures MovedAlong(Followed(v, pairs[..k]), pairs, key, k)
  {
    if k == 0 {
      assert pairs[..0] == [];
    } else {
      LeftEndsMove(v, pairs, key, k - 1);
      FollowedOneMore(v, pairs, k - 1);
      MovedOneMore(Followed(v, pairs[..k - 1]), pairs, key, k - 1);
    }
  }

  /** Once the port is the right end of a link to a port that has not moved, it is back on the old VLAN
      and the neighbours it took along are not. */
  ghost predicate Stranded(f: Names, pairs: seq<(Key, Key)>, key: Key, k: nat)
    requires 0 < k <= |pairs| && Known(f, pairs) && key in f
  {
    && f[key] == None && f[pairs[0].1] == Some(0)
    && forall j :: k <= j < |pairs| ==> f[Other(pairs[j], key)] == None
  }

  lemma StrandedOneMore(f: Names, pairs: seq<(Key, Key)>, key: Key, k: nat)
    requires 0 < k < |pairs| && Known(f, pairs) && key in f && DistinctNeighbours(pairs, key) && pairs[0].0 == key
    requires Stranded(f, pairs, key, k)
    ensures Stranded(f[pairs[k].1 := f[pairs[k].0]], pairs, key, k + 1)
  {
    assert Other(pairs[0], key) != Other(pairs[k], key);
  }

  lemma FirstStranded(f: Names, pairs: seq<(Key, Key)>, key: Key, k: nat)
    requires 0 < k < |pairs| && Known(f, pairs) && key in f && DistinctNeighbours(pairs, key)
    requires pairs[0].0 == key && pairs[k].1 == key
    requires MovedAlong(f, pairs, key, k)
    ensures Stranded(f[pairs[k].1 := f[pairs[k].0]], pairs, key, k + 1)
  {
    forall j | k <= j < |pairs| ensures f[Other(pairs[j], key)] == None {
      assert PairTouches(pairs[j], key);
      forall i | 0 <= i < |pairs[..k]| ensures Other(pairs[..k][i], key) != Other(pairs[j], key) { }
    }
    assert Other(pairs[..k][0], key) == pairs[0].1;
  }

  lemma StrandedAt(v: Names, pairs: seq<(Key, Key)>, key: Key, r: nat)
    requires OnlyNew(v, key) && Known(v, pairs) && DistinctNeighbours(pairs, key) && 0 < r < |pairs|
    requires pairs[0].0 == key && pairs[r].1 == key && forall i :: 0 <= i < r ==> pairs[i].1 != key
    ensures Stranded(Followed(v, pairs[..r + 1]), pairs, key, r + 1)
  {
    LeftEndsMove(v, pairs, key, r);
    FirstStranded(Followed(v, pairs[..r]), pairs, key, r);
    FollowedOneMore(v, pairs, r);
  }

  lemma StrandedNext(v: Names, pairs: seq<(Key, Key)>, key: Key, k: nat)
    requires Known(v, pairs) && key in v && DistinctNeighbours(pairs, key) && 0 < k < |pairs| && pairs[0].0 == key
    requires Stranded(Followed(v, pairs[..k]), pairs, key, k)
    ensures Stranded(Followed(v, pairs[..k + 1]), pairs, key, k + 1)
  {
    StrandedOneMore(Followed(v, pairs[..k]), pairs, key, k);
    FollowedOneMore(v, pairs, k);
  }

  lemma {:induction false} StrandedStays(v: Names, pairs: seq<(Key, Key)>, key: Key, r: nat, k: nat)
    requires OnlyNew(v, key) && Known(v, pairs) && DistinctNeighbours(pairs, key) && 0 < r < k <= |pairs|
    requires pairs[0].0 == key && pairs[r].1 == key && forall i :: 0 <= i < r ==> pairs[i].1 != key
    ensures Stranded(Followed(v, pairs[..k]), pairs, key, k)
  {
    if k == r + 1 {
      StrandedAt(v, pairs, key, r);
    } else {
      StrandedStays(v, pairs, key, r, k - 1);
      StrandedNext(v, pairs, key, k - 1);
    }
  }

  /** The first pair in which `key` is the right end. */
  lemma {:induction false} FirstRightEnd(pairs: seq<(Key, Key)>, key: Key) returns (r: nat)
    requires IsRightEnd(pairs, key)
    ensures r < |pairs| && pairs[r].1 == key && forall i :: 0 <= i < r ==> pairs[i].1 != key
  {
    if pairs[0].1 == key {
      r := 0;
    } else {
      var i :| 0 <= i < |pairs| && pairs[i].1 == key;
      assert pairs[1..][i - 1].1 == key;
      var t := FirstRightEnd(pairs[1..], key);
      r := t + 1;
      forall j | 0 <= j < r ensures pairs[j].1 != key {
        if j > 0 { assert pairs[1..][j - 1].1 != key; }
      }
    }
  }

  // ---- One stale port ----

  /** When all links agree after one port was rebuilt: it has no link; or it is the right end of its
      first link; or it is the right end of none, and no other link has exactly one of its neighbours. */
  ghost predicate OrderIsGood(s: Manager, pairs: seq<(Key, Key)>, key: Key) {
    pairs == [] || pairs[0].1 == key || (!IsRightEnd(pairs, key) && NeighboursClosed(s, pairs, key))
  }

  ghost predicate PairsOf(s: Manager, pairs: seq<(Key, Key)>, key: Key) {
    forall p :: p in pairs <==> p in Pairs(s.links) && PairTouches(p, key)
  }

  lemma MovedNames(s: Manager, f: Names, pairs: seq<(Key, Key)>, key: Key)
    requires LinksTracked(s) && f.Keys == s.ports.Keys && key in f && PairsOf(s, pairs, key)
    requires MovedAlong(f, pairs, key, |pairs|)
    ensures NamesAgree(s, f) <==> NeighboursClosed(s, pairs, key)
  {
    assert pairs[..|pairs|] == pairs;
    forall p | p in Pairs(s.links) && PairTouches(p, key) ensures p.0 in f && p.1 in f ==> f[p.0] == f[p.1] {
      assert p in pairs;
      var i :| 0 <= i < |pairs| && pairs[i] == p;
      assert Neighbour(pairs, key, Other(pairs[i], key));
    }
    forall p | p in Pairs(s.links) ensures p.0 in f && p.1 in f { }
    forall p | p in Pairs(s.links) && !PairTouches(p, key)
      ensures f[p.0] == f[p.1] <==> (Neighbour(pairs, key, p.0) <==> Neighbour(pairs, key, p.1))
    {
    }
  }

  lemma FollowedAgreeIff(s: Manager, v: Names, pairs: seq<(Key, Key)>, key: Key)
    requires LinksTracked(s) && v.Keys == s.ports.Keys && OnlyNew(v, key) && PairsOf(s, pairs, key)
    requires DistinctNeighbours(pairs, key)
    ensures NamesAgree(s, Followed(v, pairs)) <==> OrderIsGood(s, pairs, key)
  {
    assert pairs[..|pairs|] == pairs;
    forall i | 0 <= i < |pairs| ensures pairs[i].0 in v && pairs[i].1 in v { assert pairs[i] in pairs; }
    if !IsRightEnd(pairs, key) {
      LeftEndsMove(v, pairs, key, |pairs|);
      MovedNames(s, Followed(v, pairs), pairs, key);
      if pairs == [] { NoNeighbours(s, pairs, key); }
    } else if pairs[0].1 == key {
      RightEndFirst(v, pairs, key, |pairs|);
    } else {
      var r := FirstRightEnd(pairs, key);
      StrandedStays(v, pairs, key, r, |pairs|);
      assert pairs[0] in pairs && PairTouches(pairs[0], key);
    }
  }

  lemma NoNeighbours(s: Manager, pairs: seq<(Key, Key)>, key: Key)
    requires pairs == []
    ensures NeighboursClosed(s, pairs, key)
  {
  }

  /** One stale port whose links lead to different ports, with the cursor ahead: after an error-free
      restart all links work exactly when its links are in a good order. */
  lemma OneStalePortIff(s: Manager, container: string, labId: string, env: RestartEnv, key: Key)
    requires Book(s) && TagsAgree(s) && CursorAhead(s, 1) && StaleKeys(s, container, env) == [key]
    requires DistinctNeighbours(Connected(s.links, key), key)
    ensures var (s', errors) := Restart(s, container, labId, env);
            errors == 0 ==> (TagsAgree(s') <==> OrderIsGood(s, Connected(s.links, key), key))
  {
    RestartReconnectsIff(s, container, labId, env);
    StaleTracked(s, container, env);
    assert [key][0] == key;
    var old0 := NamesAfter(s, [key], 0);
    assert NamesAfter(s, [key], 1) == Followed(old0[key := Some(0)], Connected(s.links, key));
    ConnectedMembers(s.links, key);
    FollowedAgreeIff(s, old0[key := Some(0)], Connected(s.links, key), key);
  }
}
