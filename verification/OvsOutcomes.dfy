/** What single operations of the OVS manager leave, field by field and for every outcome of their commands. */
module OvsOutcomes {
  import opened Wrappers
  import opened VlanPools
  import opened OvsProvision
  import opened OvsBookkeeping
  import opened OvsRestart
  import opened OvsVlanNames

  // ---- The allocator ----

  /** A key that has a reservation keeps it.  Any other gets the first unreserved tag on the ring 100..4000
      from the cursor on, and the cursor moves just behind it; with no tag left nothing changes. */
  lemma AllocateOutcome(v: Allocator, key: Key)
    requires 100 <= v.next <= 4000
    ensures var (v', tag) := AllocateTag(v, key);
            && (key in v.tags ==> v' == v && tag == Some(v.tags[key]))
            && (key !in v.tags && (forall u :: 100 <= u <= 4000 ==> u in v.tags.Values) ==> v' == v && tag == None)
            && (key !in v.tags && !(forall u :: 100 <= u <= 4000 ==> u in v.tags.Values) ==>
                  && tag.Some? && 100 <= tag.value <= 4000 && tag.value !in v.tags.Values
                  && (forall u :: 100 <= u <= 4000 && RingSteps(v.next, u) < RingSteps(v.next, tag.value) ==>
                        u in v.tags.Values)
                  && v'.tags == v.tags[key := tag.value]
                  && v'.next == if tag.value == 4000 then 100 else tag.value + 1)
  {
    SearchIsNearest(v.tags.Values, VLAN_START, VLAN_END, v.next, VLAN_END - VLAN_START + 1);
    SearchIsComplete(v.tags.Values, VLAN_START, VLAN_END, v.next);
    forall u | 100 <= u <= 4000 ensures RingSteps(v.next, u) == Distance(VLAN_START, VLAN_END, v.next, u) { }
  }

  /** Steps from `cursor` to `u` on the ring 100..4000. */
  ghost function RingSteps(cursor: int, u: int): int { if u >= cursor then u - cursor else u - cursor + 3901 }

  /** A tag that was just given back is handed out again only when no other is left: the cursor is past it. */
  lemma ReleasedTagComesLast(v: Allocator, key: Key, other: Key)
    requires 100 <= v.next <= 4000 && key !in v.tags && other !in v.tags && other != key
    requires AllocateTag(v, key).1.Some?
    ensures var (v1, tag) := AllocateTag(v, key);
            AllocateTag(ReleaseTag(v1, key), other).1 == tag
            ==> forall u :: 100 <= u <= 4000 && u != tag.value ==> u in v.tags.Values
  {
    AllocateOutcome(v, key);
    var (v1, tag) := AllocateTag(v, key);
    var v2 := ReleaseTag(v1, key);
    AllocateOutcome(v2, other);
    assert v2.tags == v.tags;
    forall u | 100 <= u <= 4000 && u != tag.value ensures RingSteps(v2.next, u) < RingSteps(v2.next, tag.value) { }
  }

  // ---- Provisioning ----

  /** The container runs and there is a tag for the key. */
  ghost predicate Begins(s: Manager, key: Key, rc: ProvisionRc) {
    rc.pidOk && (key in s.vlans.tags || !(forall u :: 100 <= u <= 4000 ==> u in s.vlans.tags.Values))
  }

  /** A tracked interface is left alone.  A new one is provisioned exactly when its container runs, a tag is to
      be had, the name is free and the commands work; it is then on the bridge and tracked with one tag.  A
      failure before the tag touches nothing; any later one leaves no bridge port of that name, if deleting
      it works, and takes back the reservation. */
  lemma ProvisionOutcome(s: Manager, key: Key, labId: string, nodeName: Option<string>, rc: ProvisionRc)
    requires 100 <= s.vlans.next <= 4000
    ensures var (s', tag) := Provision(s, key, labId, nodeName, rc);
            && s'.links == s.links
            && (key in s.ports ==> s' == s && tag == Some(s.ports[key].tag))
            && (key !in s.ports ==>
                  && (tag.Some? <==>
                        Begins(s, key, rc) && rc.addLink && rc.addPort && rc.portName !in s.bridge && rc.move)
                  && (tag.Some? ==>
                        && s'.ports == s.ports[key := Port(rc.portName, tag.value, labId, nodeName)]
                        && s'.order == s.order + [key] && s'.bridge == s.bridge[rc.portName := tag.value]
                        && s'.vlans.tags == s.vlans.tags[key := tag.value]
                        && (key in s.vlans.tags ==> tag.value == s.vlans.tags[key]))
                  && (tag == None ==>
                        && s'.ports == s.ports && s'.order == s.order
                        && (if Begins(s, key, rc) then
                              && s'.vlans.tags == s.vlans.tags - {key}
                              && (rc.delPort ==> s'.bridge == s.bridge - {rc.portName})
                            else s' == s)))
  {
    AllocateOutcome(s.vlans, key);
    var (vlans, tag) := AllocateTag(s.vlans, key);
    if key !in s.ports && rc.pidOk && tag.Some? {
      assert vlans.tags - {key} == s.vlans.tags - {key};
      assert s.bridge[rc.portName := tag.value] - {rc.portName} == s.bridge - {rc.portName};
    }
  }

  // ---- Deletion and stale cleanup ----

  /** The port `key`, called `portName` on the bridge, is gone, with its links and its reservation; all else
      is as it was. */
  ghost predicate Gone(s: Manager, s': Manager, key: Key, portName: string, delPort: bool) {
    && s'.ports == s.ports - {key} && s'.vlans.tags == s.vlans.tags - {key} && s'.vlans.next == s.vlans.next
    && (forall l :: l in s'.links <==> l in s.links && l.a != key && l.b != key)
    && s'.bridge == if delPort then s.bridge - {portName} else s.bridge
  }

  lemma DeleteOutcome(s: Manager, key: Key, delPort: bool)
    ensures var (s', ok) := Delete(s, key, delPort);
            && (ok <==> key in s.ports)
            && (if ok then Gone(s, s', key, s.ports[key].portName, delPort) else s' == s)
  {
    LinksWithoutMembers(s.links, key);
  }

  lemma CleanupOutcome(s: Manager, key: Key, portName: string, delPort: bool)
    ensures Gone(s, CleanupStale(s, key, portName, delPort), key, portName, delPort)
  {
    LinksWithoutMembers(s.links, key);
  }

  // ---- Connecting ----

  /** Both ends must be tracked; unless they share a tag already, the second end must be on the bridge and its
      retagging work.  Then only the second end changes: it has the tag of the first, tracked and on the
      bridge, and gives up its own reservation if the tag is a new one; and there is just one record of the
      link, under the lab that was named, or else that of the first end, with the shared tag. */
  lemma ConnectOutcome(s: Manager, a: Key, b: Key, labId: string, setOk: bool)
    ensures var (s', tag) := HotConnect(s, a, b, labId, setOk);
            && (tag.Some? <==>
                  && a in s.ports && b in s.ports
                  && (s.ports[a].tag == s.ports[b].tag || (setOk && s.ports[b].portName in s.bridge)))
            && (tag == None ==> s' == s)
            && (tag.Some? ==>
                  var shared := s.ports[a].tag;
                  var lab := if labId != "" then labId else s.ports[a].labId;
                  var retag := s.ports[b].tag != shared;
                  && tag.value == shared && s'.order == s.order && s'.vlans.next == s.vlans.next
                  && s'.ports == s.ports[b := Port(s.ports[b].portName, shared, s.ports[b].labId, s.ports[b].nodeName)]
                  && s'.vlans.tags == (if retag then s.vlans.tags - {b} else s.vlans.tags)
                  && s'.bridge == (if retag then s.bridge[s.ports[b].portName := shared] else s.bridge)
                  && Link(lab, a, b, shared) in s'.links
                  && (forall l :: l in s'.links && l != Link(lab, a, b, shared) ==> l in s.links)
                  && (forall l :: l in s.links && !(l.labId == lab && l.a == a && l.b == b) ==> l in s'.links))
  {
    if a in s.ports && b in s.ports {
      AddLinkMembers(s.links, Link(if labId == "" then s.ports[a].labId else labId, a, b, s.ports[a].tag));
      if s.ports[b].tag == s.ports[a].tag { assert s.ports[b := s.ports[b]] == s.ports; }
    }
  }

  // ---- The errors of a restart ----

  /** Of a container's ports just those whose probe fails are counted as such. */
  lemma {:induction false} ProbeErrorsCounted(order: seq<Key>, container: string, probe: Key -> Probe)
    ensures WithProbe(PortsOf(order, container), probe, ProbeError) == []
       <==> forall k :: k in order && k.container == container ==> probe(k) != ProbeError
  {
    StaleAreKeys(order, container, probe, ProbeError);
    var failed := WithProbe(PortsOf(order, container), probe, ProbeError);
    if failed != [] {
      assert failed[0] in failed;
    }
  }

  /** A restart without an error had no failing probe. */
  lemma NoErrorNoFailedProbe(s: Manager, container: string, labId: string, env: RestartEnv)
    requires Restart(s, container, labId, env).1 == 0
    ensures forall k :: k in s.order && k.container == container ==> env.probe(k) != ProbeError
  {
    ProbeErrorsCounted(s.order, container, env.probe);
  }

  // ---- The records of a restart ----

  /** The port has been provisioned for the lab, without a node name. */
  ghost predicate Renewed(m: Manager, key: Key, labId: string) {
    key in m.ports && m.ports[key].labId == labId && m.ports[key].nodeName == None
  }

  lemma {:induction false} ReconnectLabels(m: Manager, pairs: seq<(Key, Key)>, labId: string, ok: nat -> bool, k: nat)
    requires k <= |pairs| && labId != ""
    ensures forall l :: l in Reconnect(m, pairs, labId, ok, k).0.links ==> l in m.links || l.labId == labId
  {
    if k > 0 {
      ReconnectLabels(m, pairs, labId, ok, k - 1);
      ConnectOutcome(Reconnect(m, pairs, labId, ok, k - 1).0, pairs[k - 1].0, pairs[k - 1].1, labId, ok(k - 1));
    }
  }

  lemma ReprovisionLabels(m: Manager, key: Key, portName: string, pairs: seq<(Key, Key)>, labId: string, i: nat,
                          env: RestartEnv)
    requires Book(m) && labId != ""
    ensures forall l :: l in Reprovision(m, key, portName, pairs, labId, i, env).0.links ==>
              (l in m.links && l.a != key && l.b != key) || l.labId == labId
  {
    var m1 := CleanupStale(m, key, portName, env.delPort(i));
    CleanupOutcome(m, key, portName, env.delPort(i));
    var (m2, tag) := Provision(m1, key, labId, None, env.provision(i));
    if tag.Some? { ReconnectLabels(m2, pairs, labId, env.connect(i), |pairs|); }
  }

  /** The records of one stale port and its links: every link on it names the lab, and so does the port, if
      there was no error. */
  ghost predicate Recorded(m: Manager, key: Key, errors: nat, labId: string) {
    && (errors == 0 ==> Renewed(m, key, labId))
    && forall l :: l in m.links && (l.a == key || l.b == key) ==> l.labId == labId
  }

  lemma RoundRecords(s: Manager, m: Manager, stale: seq<Key>, k: nat, errors: nat, labId: string, env: RestartEnv,
                     key: Key)
    requires k < |stale| && stale[k] in s.ports && Restarted(s, m, stale, k, errors) && labId != ""
    requires key != stale[k] ==> Recorded(m, key, errors, labId)
    ensures var (m', more) := StaleRound(s, stale, labId, env)(m, k); Recorded(m', key, errors + more, labId)
  {
    var pairs := Connected(s.links, stale[k]);
    ConnectedMembers(s.links, stale[k]);
    ReprovisionLabels(m, stale[k], s.ports[stale[k]].portName, pairs, labId, k, env);
    ReprovisionContract(m, stale[k], s.ports[stale[k]].portName, pairs, labId, k, env);
    var (m', more) := Reprovision(m, stale[k], s.ports[stale[k]].portName, pairs, labId, k, env);
    if key != stale[k] && errors + more == 0 { assert SamePort(m'.ports[key], m.ports[key]); }
  }

  ghost predicate RecordedUpTo(s: Manager, stale: seq<Key>, labId: string, env: RestartEnv, k: nat, key: Key) {
    var (m, errors) := Iterate(s, StaleRound(s, stale, labId, env), k); Recorded(m, key, errors, labId)
  }

  lemma RecordedNext(s: Manager, stale: seq<Key>, labId: string, env: RestartEnv, k: nat, key: Key)
    requires Book(s) && labId != "" && k < |stale| && forall i :: 0 <= i < |stale| ==> stale[i] in s.ports
    requires key != stale[k] ==> RecordedUpTo(s, stale, labId, env, k, key)
    ensures RecordedUpTo(s, stale, labId, env, k + 1, key)
  {
    var (m, errors) := Iterate(s, StaleRound(s, stale, labId, env), k);
    StalePorts(s, stale, labId, env, k);
    RoundRecords(s, m, stale, k, errors, labId, env, key);
    IterateOneMore(s, StaleRound(s, stale, labId, env), k);
  }

  lemma {:induction false} StalePortRecorded(s: Manager, stale: seq<Key>, labId: string, env: RestartEnv, k: nat,
                                              key: Key)
    requires Book(s) && labId != "" && k <= |stale| && forall i :: 0 <= i < |stale| ==> stale[i] in s.ports
    requires key in stale[..k]
    ensures RecordedUpTo(s, stale, labId, env, k, key)
  {
    if key != stale[k - 1] {
      assert stale[..k] == stale[..k - 1] + [stale[k - 1]];
      StalePortRecorded(s, stale, labId, env, k - 1, key);
    }
    RecordedNext(s, stale, labId, env, k - 1, key);
  }

  /** After a restart for a lab all links on its stale ports are recorded under that lab; and when there was no
      error, so are the ports themselves, without a node name. */
  lemma RestartRecords(s: Manager, container: string, labId: string, env: RestartEnv)
    requires Book(s) && labId != ""
    ensures var (s', errors) := Restart(s, container, labId, env);
            forall k :: k in s.ports && k.container == container && env.probe(k) == Stale ==>
              && (errors == 0 ==> Renewed(s', k, labId))
              && forall l :: l in s'.links && (l.a == k || l.b == k) ==> l.labId == labId
  {
    var stale := StaleKeys(s, container, env);
    StaleAreKeys(s.order, container, env.probe, Stale);
    assert stale[..|stale|] == stale && forall i :: 0 <= i < |stale| ==> stale[i] in stale;
    forall k | k in stale ensures RecordedUpTo(s, stale, labId, env, |stale|, k) {
      StalePortRecorded(s, stale, labId, env, |stale|, k);
    }
  }
}
