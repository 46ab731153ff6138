/** What every operation of the OVS manager keeps, and what single operations undo. */
module OvsBookkeeping {
  import opened Wrappers
  import opened VlanPools
  import opened OvsProvision

  // ---- Lists ----

  lemma {:induction false} KeepKeysMembers(order: seq<Key>, key: Key)
    ensures forall k :: k in KeepKeys(order, key) <==> k in order && k != key
    ensures NoRepeats(order) ==> NoRepeats(KeepKeys(order, key))
    ensures key !in order ==> KeepKeys(order, key) == order
  {
    if order != [] {
      var rest := KeepKeys(order[1..], key);
      KeepKeysMembers(order[1..], key);
      if NoRepeats(order) {
        assert NoRepeats(order[1..]) && order[0] !in order[1..];
        assert NoRepeats(rest) && NoRepeats([order[0]] + rest);
      }
    }
  }

  lemma {:induction false} LinksWithoutMembers(links: seq<Link>, key: Key)
    ensures forall l :: l in LinksWithout(links, key) <==> l in links && !Touches(l, key)
    ensures (forall l :: l in links ==> !Touches(l, key)) ==> LinksWithout(links, key) == links
  {
    if links != [] {
      LinksWithoutMembers(links[1..], key);
      assert links == [links[0]] + links[1..];
    }
  }

  lemma {:induction false} AddLinkMembers(links: seq<Link>, l: Link)
    ensures l in AddLink(links, l)
    ensures forall m :: m in AddLink(links, l) ==> m == l || m in links
    ensures forall m :: m in links ==> m in AddLink(links, l) || SameLink(m, l)
  {
    if links != [] && !SameLink(links[0], l) { AddLinkMembers(links[1..], l); }
  }

  // ---- Invariants ----

  ghost predicate LinksTracked(s: Manager) {
    forall l :: l in s.links ==> l.a in s.ports && l.b in s.ports
  }

  /** Every reservation belongs to a tracked port and is its tag. */
  ghost predicate Reservations(s: Manager) {
    forall k :: k in s.vlans.tags ==> k in s.ports && s.ports[k].tag == s.vlans.tags[k]
  }

  /** What holds in every state of every run. */
  ghost predicate Book(s: Manager) {
    WellOrdered(s) && LinksTracked(s) && Reservations(s) && VLAN_START <= s.vlans.next <= VLAN_END
  }

  /** Every tracked port also has its reservation; hot_connect alone gives this up. */
  ghost predicate FullyReserved(s: Manager) { s.ports.Keys == s.vlans.tags.Keys }

  /** OVS has every tracked port, under a name of its own, with the tracked tag. */
  ghost predicate BridgeAgrees(s: Manager) {
    && (forall k :: k in s.ports ==> s.ports[k].portName in s.bridge && s.bridge[s.ports[k].portName] == s.ports[k].tag)
    && (forall k, l :: k in s.ports && l in s.ports && k != l ==> s.ports[k].portName != s.ports[l].portName)
  }

  lemma AllocateTagContract(v: Allocator, key: Key)
    requires VLAN_START <= v.next <= VLAN_END
    ensures var (v', tag) := AllocateTag(v, key);
            && VLAN_START <= v'.next <= VLAN_END
            && (tag == None <==> key !in v.tags && forall u :: VLAN_START <= u <= VLAN_END ==> u in v.tags.Values)
            && (tag == None ==> v' == v)
            && (tag.Some? ==> v'.tags == v.tags[key := tag.value])
            && (tag.Some? && key !in v.tags ==> VLAN_START <= tag.value <= VLAN_END && tag.value !in v.tags.Values)
  {
    SearchIsComplete(v.tags.Values, VLAN_START, VLAN_END, v.next);
  }

  lemma ForgetKeepsBook(s: Manager, key: Key)
    requires Book(s)
    ensures Book(Forget(s, key)) && (FullyReserved(s) ==> FullyReserved(Forget(s, key)))
    ensures forall l :: l in Forget(s, key).links <==> l in s.links && !Touches(l, key)
  {
    KeepKeysMembers(s.order, key);
    LinksWithoutMembers(s.links, key);
  }

  lemma ForgetKeepsBridge(s: Manager, key: Key, ok: bool)
    requires BridgeAgrees(s) && key in s.ports
    ensures BridgeAgrees(Forget(s.(bridge := DelPort(s.bridge, s.ports[key].portName, ok)), key))
  {
    var s' := Forget(s.(bridge := DelPort(s.bridge, s.ports[key].portName, ok)), key);
    forall k | k in s'.ports ensures s'.ports[k].portName in s'.bridge {
      assert k != key;
    }
  }

  /** Only cursor and bridge differ. */
  ghost predicate SameTables(s: Manager, s': Manager) {
    s'.ports == s.ports && s'.order == s.order && s'.links == s.links && s'.vlans.tags == s.vlans.tags
  }

  lemma SameTablesKeepBook(s: Manager, s': Manager)
    requires Book(s) && SameTables(s, s') && VLAN_START <= s'.vlans.next <= VLAN_END
    ensures Book(s') && (FullyReserved(s) ==> FullyReserved(s'))
  {
  }

  /** One more port, with a reservation of its own. */
  lemma TrackKeepsBook(s: Manager, key: Key, port: Port, next: int, bridge: map<string, int>)
    requires Book(s) && key !in s.ports && VLAN_START <= next <= VLAN_END
    ensures var s' := TrackPort(s.(vlans := Allocator(s.vlans.tags[key := port.tag], next), bridge := bridge),
                              key, port);
            Book(s') && (FullyReserved(s) ==> FullyReserved(s'))
  {
  }

  /** Provisioning: on any failure the three tables are exactly as before; on success one new port
      with a tag nobody had reserved, and nothing else. */
  lemma ProvisionContract(s: Manager, key: Key, labId: string, nodeName: Option<string>, rc: ProvisionRc)
    requires Book(s)
    ensures var (s', tag) := Provision(s, key, labId, nodeName, rc);
            && Book(s') && s'.links == s.links && (FullyReserved(s) ==> FullyReserved(s'))
            && (tag == None ==> s'.ports == s.ports && s'.order == s.order && s'.vlans.tags == s.vlans.tags)
            && (tag.Some? && key in s.ports ==> s' == s && tag.value == s.ports[key].tag)
            && (tag.Some? && key !in s.ports ==>
                  && s'.ports == s.ports[key := Port(rc.portName, tag.value, labId, nodeName)]
                  && s'.vlans.tags == s.vlans.tags[key := tag.value]
                  && tag.value !in s.vlans.tags.Values && VLAN_START <= tag.value <= VLAN_END)
  {
    AllocateTagContract(s.vlans, key);
    var (vlans, allotted) := AllocateTag(s.vlans, key);
    var (s', tag) := Provision(s, key, labId, nodeName, rc);
    if key !in s.ports && tag.Some? {
      TrackKeepsBook(s, key, Port(rc.portName, tag.value, labId, nodeName), vlans.next,
                      s.bridge[rc.portName := tag.value]);
    } else {
      if key !in s.ports && allotted.Some? { assert ReleaseTag(vlans, key).tags == s.vlans.tags; }
      SameTablesKeepBook(s, s');
    }
  }

  lemma CollisionDeletesPort(s: Manager, key: Key, labId: string, nodeName: Option<string>, rc: ProvisionRc, k: Key)
    requires Book(s) && BridgeAgrees(s) && key !in s.ports && rc.pidOk && AllocateTag(s.vlans, key).1.Some?
    requires k in s.ports && s.ports[k].portName == rc.portName
    ensures BridgeAgrees(Provision(s, key, labId, nodeName, rc).0) <==> !rc.delPort
  {
    var s' := Provision(s, key, labId, nodeName, rc).0;
    assert s'.ports == s.ports && s'.bridge == DelPort(s.bridge, rc.portName, rc.delPort);
  }

  lemma FreshNameKeepsBridge(s: Manager, key: Key, labId: string, nodeName: Option<string>, rc: ProvisionRc)
    requires Book(s) && BridgeAgrees(s) && key !in s.ports && rc.pidOk && AllocateTag(s.vlans, key).1.Some?
    requires forall k :: k in s.ports ==> s.ports[k].portName != rc.portName
    ensures BridgeAgrees(Provision(s, key, labId, nodeName, rc).0)
  {
    var s' := Provision(s, key, labId, nodeName, rc).0;
    assert forall k :: k in s.ports ==> k in s'.ports && s'.ports[k] == s.ports[k];
  }

  /** The bridge stays in agreement exactly unless the random port name hits a tracked port: then
      `add-port` fails and the failure path deletes that other port. */
  lemma ProvisionKeepsBridge(s: Manager, key: Key, labId: string, nodeName: Option<string>, rc: ProvisionRc)
    requires Book(s) && BridgeAgrees(s) && key !in s.ports && rc.pidOk && AllocateTag(s.vlans, key).1.Some?
    ensures BridgeAgrees(Provision(s, key, labId, nodeName, rc).0)
            <==> !(rc.delPort && exists k :: k in s.ports && s.ports[k].portName == rc.portName)
  {
    if k :| k in s.ports && s.ports[k].portName == rc.portName {
      CollisionDeletesPort(s, key, labId, nodeName, rc, k);
    } else {
      FreshNameKeepsBridge(s, key, labId, nodeName, rc);
    }
  }

  lemma DeleteKeepsBook(s: Manager, key: Key, delPort: bool)
    requires Book(s)
    ensures var (s', ok) := Delete(s, key, delPort);
            && Book(s') && (FullyReserved(s) ==> FullyReserved(s')) && (BridgeAgrees(s) ==> BridgeAgrees(s'))
            && (ok <==> key in s.ports) && key !in s'.ports && key !in s'.vlans.tags
            && (forall l :: l in s'.links ==> !Touches(l, key))
  {
    if key in s.ports {
      ForgetKeepsBook(s.(bridge := DelPort(s.bridge, s.ports[key].portName, delPort)), key);
      if BridgeAgrees(s) { ForgetKeepsBridge(s, key, delPort); }
    } else {
      assert forall l :: l in s.links ==> !Touches(l, key);
    }
  }

  lemma ForgetUndoesTrack(s: Manager, key: Key, port: Port, vlans: Allocator)
    requires WellOrdered(s) && LinksTracked(s) && key !in s.ports && vlans.tags - {key} == s.vlans.tags
    ensures Forget(TrackPort(s.(vlans := vlans), key, port), key) == s.(vlans := Allocator(s.vlans.tags, vlans.next))
  {
    KeepKeysOfAppend(s.order, key);
    LinksWithoutMembers(s.links, key);
    assert s.ports[key := port] - {key} == s.ports;
  }

  /** Deleting right after provisioning undoes it: only the allocator's cursor has moved. */
  lemma DeleteUndoesProvision(s: Manager, key: Key, labId: string, nodeName: Option<string>, rc: ProvisionRc)
    requires Book(s) && key !in s.ports && rc.portName !in s.bridge
    requires Provision(s, key, labId, nodeName, rc).1.Some?
    ensures var s1 := Provision(s, key, labId, nodeName, rc).0;
            Delete(s1, key, true).0 == s.(vlans := Allocator(s.vlans.tags, s1.vlans.next))
  {
    AllocateTagContract(s.vlans, key);
    var (vlans, tag) := AllocateTag(s.vlans, key);
    var bridge := s.bridge[rc.portName := tag.value];
    var port := Port(rc.portName, tag.value, labId, nodeName);
    assert bridge - {rc.portName} == s.bridge;
    assert vlans.tags - {key} == s.vlans.tags;
    ForgetUndoesTrack(s, key, port, vlans);
  }

  lemma {:induction false} KeepKeysOfAppend(order: seq<Key>, key: Key)
    requires key !in order
    ensures KeepKeys(order + [key], key) == order
  {
    if order != [] {
      assert (order + [key])[1..] == order[1..] + [key];
      KeepKeysOfAppend(order[1..], key);
    }
  }

  /** hot_connect keeps the books; a failure changes nothing; success leaves both ends on one tag.
      Every port keeps its reservation exactly when the call fails or the ends already shared a tag. */
  lemma HotConnectContract(s: Manager, a: Key, b: Key, labId: string, setOk: bool)
    requires Book(s)
    ensures var (s', tag) := HotConnect(s, a, b, labId, setOk);
            && Book(s') && s'.ports.Keys == s.ports.Keys && (BridgeAgrees(s) ==> BridgeAgrees(s'))
            && (tag == None ==> s' == s)
            && (tag.Some? ==>
                  && a in s.ports && b in s.ports
                  && s'.ports[a].tag == s'.ports[b].tag == tag.value == s.ports[a].tag)
            && (forall k :: k in s.ports && k != b ==> s'.ports[k] == s.ports[k])
            && (FullyReserved(s) ==> (FullyReserved(s') <==> tag == None || s.ports[a].tag == s.ports[b].tag))
  {
    if a in s.ports && b in s.ports {
      var shared := s.ports[a].tag;
      AddLinkMembers(s.links, Link(if labId == "" then s.ports[a].labId else labId, a, b, shared));
    }
  }

  // ---- Runs ----

  datatype Op =
    | OpProvision(key: Key, labId: string, nodeName: Option<string>, rc: ProvisionRc)
    | OpDelete(key: Key, delPort: bool)
    | OpCleanup(key: Key, delPort: bool)
    | OpConnect(a: Key, b: Key, labId: string, setOk: bool)

  /** Stale cleanup is only ever started on a tracked port. */
  function Step(s: Manager, op: Op): Manager {
    match op
    case OpProvision(key, labId, nodeName, rc) => Provision(s, key, labId, nodeName, rc).0
    case OpDelete(key, ok) => Delete(s, key, ok).0
    case OpCleanup(key, ok) => if key in s.ports then CleanupStale(s, key, s.ports[key].portName, ok) else s
    case OpConnect(a, b, labId, ok) => HotConnect(s, a, b, labId, ok).0
  }

  function Run(s: Manager, ops: seq<Op>): Manager
    decreases |ops|
  {
    if ops == [] then s else Run(Step(s, ops[0]), ops[1..])
  }

  lemma StepKeepsBook(s: Manager, op: Op)
    requires Book(s)
    ensures Book(Step(s, op)) && (FullyReserved(s) && !op.OpConnect? ==> FullyReserved(Step(s, op)))
  {
    match op
    case OpProvision(key, labId, nodeName, rc) => ProvisionContract(s, key, labId, nodeName, rc);
    case OpDelete(key, ok) => DeleteKeepsBook(s, key, ok);
    case OpCleanup(key, ok) => if key in s.ports { DeleteKeepsBook(s, key, ok); }
    case OpConnect(a, b, labId, ok) => HotConnectContract(s, a, b, labId, ok);
  }

  /** Port bookkeeping over every run with every failure exit: links join tracked ports and every
      reservation is the tag of a tracked port; without hot_connect, port keys and reservation keys
      are the same. */
  lemma {:induction false} RunKeepsBook(s: Manager, ops: seq<Op>)
    requires Book(s)
    ensures Book(Run(s, ops))
    ensures FullyReserved(s) && (forall i :: 0 <= i < |ops| ==> !ops[i].OpConnect?) ==> FullyReserved(Run(s, ops))
    decreases |ops|
  {
    if ops != [] {
      StepKeepsBook(s, ops[0]);
      RunKeepsBook(Step(s, ops[0]), ops[1..]);
      if forall i :: 0 <= i < |ops| ==> !ops[i].OpConnect? {
        assert forall i :: 0 <= i < |ops[1..]| ==> !ops[1..][i].OpConnect?;
      }
    }
  }

  /** Every generated port name is new to the bridge. */
  ghost predicate FreshNames(s: Manager, ops: seq<Op>)
    decreases |ops|
  {
    ops == [] || ((ops[0].OpProvision? ==> ops[0].rc.portName !in s.bridge) && FreshNames(Step(s, ops[0]), ops[1..]))
  }

  lemma StepKeepsBridge(s: Manager, op: Op)
    requires Book(s) && BridgeAgrees(s) && (op.OpProvision? ==> op.rc.portName !in s.bridge)
    ensures BridgeAgrees(Step(s, op))
  {
    match op
    case OpProvision(key, labId, nodeName, rc) =>
      if key !in s.ports && rc.pidOk && AllocateTag(s.vlans, key).1.Some? {
        ProvisionKeepsBridge(s, key, labId, nodeName, rc);
      }
    case OpDelete(key, ok) => DeleteKeepsBook(s, key, ok);
    case OpCleanup(key, ok) => if key in s.ports { DeleteKeepsBook(s, key, ok); }
    case OpConnect(a, b, labId, ok) => HotConnectContract(s, a, b, labId, ok);
  }

  /** With new port names, tracked tags and bridge tags agree over every run, whatever fails. */
  lemma {:induction false} RunKeepsBridge(s: Manager, ops: seq<Op>)
    requires Book(s) && BridgeAgrees(s) && FreshNames(s, ops)
    ensures BridgeAgrees(Run(s, ops))
    decreases |ops|
  {
    if ops != [] {
      StepKeepsBook(s, ops[0]);
      StepKeepsBridge(s, ops[0]);
      RunKeepsBridge(Step(s, ops[0]), ops[1..]);
    }
  }

  // ---- A tag that loses its reservation ----

  /** After hot_connect only the first end holds the shared tag.  Deleting that end frees the tag
      although the other end still carries it; when the cursor reaches it, a new and unrelated port
      is put on the same VLAN. */
  lemma DeletedPeerFreesSharedTag(s: Manager, a: Key, b: Key, labId: string, delOk: bool, c: Key, rc: ProvisionRc)
    requires Book(s) && a in s.ports && b in s.ports && a != b && c !in s.ports
    requires s.ports[a].tag != s.ports[b].tag && s.ports[b].portName in s.bridge
    requires a in s.vlans.tags && VLAN_START <= s.ports[a].tag <= VLAN_END
    requires forall k :: k in s.vlans.tags && k != a ==> s.vlans.tags[k] != s.ports[a].tag
    requires rc.pidOk && rc.addLink && rc.addPort && rc.move
    ensures var shared := s.ports[a].tag;
            var s2 := Delete(HotConnect(s, a, b, labId, true).0, a, delOk).0;
            && b in s2.ports && s2.ports[b].tag == shared && shared !in s2.vlans.tags.Values
            && (forall l :: l in s2.links ==> !Touches(l, a))
            && (s2.vlans.next == shared && rc.portName !in s2.bridge ==>
                  Provision(s2, c, labId, None, rc).1 == Some(shared))
  {
    HotConnectContract(s, a, b, labId, true);
    var s1 := HotConnect(s, a, b, labId, true).0;
    DeleteKeepsBook(s1, a, delOk);
    var s2 := Delete(s1, a, delOk).0;
    assert forall k :: k in s2.vlans.tags ==> k in s.vlans.tags && k != a && s2.vlans.tags[k] == s.vlans.tags[k];
    if s2.vlans.next == s.ports[a].tag && rc.portName !in s2.bridge {
      assert c !in s2.vlans.tags;
    }
  }
}
