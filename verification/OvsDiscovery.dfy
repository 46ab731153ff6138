/** Rebuilding the manager's tables from the bridge after an agent restart: discover_existing_state. */
module OvsDiscovery {
  import opened Wrappers
  import opened VlanPools
  import opened OvsProvision
  import opened OvsBookkeeping
  import opened OvsRestart

  /** The container interface behind a host-side veth. */
  datatype Owner = Owner(key: Key, labId: string, nodeName: Option<string>)

  /** What was read: the bridge's port names (None: listing failed), the positive tags, the ifindex of
      each host veth, and the container interfaces by peer ifindex. */
  datatype Reading = Reading(names: Option<seq<string>>, tags: map<string, int>, ifindex: map<string, string>,
                             owners: map<string, Owner>)

  function VethNames(names: seq<string>): seq<string> {
    if names == [] then []
    else (if "vh" <= names[0] then [names[0]] else []) + VethNames(names[1..])
  }

  /** The interface a port belongs to, when tag, ifindex and container are all known. */
  function Match(r: Reading, name: string): Option<Owner> {
    if name in r.tags && name in r.ifindex && r.ifindex[name] != "" && r.ifindex[name] in r.owners
    then Some(r.owners[r.ifindex[name]]) else None
  }

  /** Track one matched port and reserve its tag. */
  function DiscoverPort(s: Manager, r: Reading, name: string): Manager {
    match Match(r, name)
    case None => s
    case Some(o) =>
      TrackPort(s.(vlans := s.vlans.(tags := s.vlans.tags[o.key := r.tags[name]])), o.key,
                Port(name, r.tags[name], o.labId, o.nodeName))
  }

  /** After the first `k` veth ports. */
  function DiscoverPorts(s: Manager, r: Reading, names: seq<string>, k: nat): Manager
    requires k <= |names|
  {
    if k == 0 then s else DiscoverPort(DiscoverPorts(s, r, names, k - 1), r, names[k - 1])
  }

  /** The tracked keys among `order` whose port has the tag, in order. */
  function KeysWithTag(ports: map<Key, Port>, order: seq<Key>, tag: int): seq<Key> {
    if order == [] then []
    else
      var last := order[|order| - 1];
      KeysWithTag(ports, order[..|order| - 1], tag) + if last in ports && ports[last].tag == tag then [last] else []
  }

  /** The tags of the ports, each once, by first appearance. */
  function TagsInOrder(ports: map<Key, Port>, order: seq<Key>): seq<int> {
    if order == [] then []
    else
      var last := order[|order| - 1];
      var tags := TagsInOrder(ports, order[..|order| - 1]);
      if last in ports && ports[last].tag !in tags then tags + [ports[last].tag] else tags
  }

  /** One tag: a link exactly when two ports share it. */
  function DiscoverLink(s: Manager, tag: int): Manager {
    var keys := KeysWithTag(s.ports, s.order, tag);
    if |keys| == 2 && keys[0] in s.ports
    then s.(links := AddLink(s.links, Link(s.ports[keys[0]].labId, keys[0], keys[1], tag))) else s
  }

  function DiscoverLinks(s: Manager, tags: seq<int>, k: nat): (s': Manager)
    requires k <= |tags|
    ensures s' == s.(links := s'.links)
  {
    if k == 0 then s else DiscoverLink(DiscoverLinks(s, tags, k - 1), tags[k - 1])
  }

  /** discover_existing_state. */
  function Discover(s: Manager, r: Reading): Manager {
    if r.names == None || VethNames(r.names.value) == [] then s
    else
      var names := VethNames(r.names.value);
      var s1 := DiscoverPorts(s, r, names, |names|);
      var tags := TagsInOrder(s1.ports, s1.order);
      DiscoverLinks(s1, tags, |tags|)
  }

  // ---- Ports ----

  /** The tracked ports have their tag reserved, and the other reservations are those that were loaded. */
  ghost predicate ReservedOver(loaded: map<Key, int>, s: Manager) {
    && s.vlans.tags.Keys == loaded.Keys + s.ports.Keys
    && forall k :: k in s.vlans.tags ==> s.vlans.tags[k] == if k in s.ports then s.ports[k].tag else loaded[k]
  }

  /** Ports and reservations mirror what was read, over the reservations loaded before. */
  ghost predicate Mirrors(loaded: map<Key, int>, s: Manager, r: Reading) {
    && WellOrdered(s) && ReservedOver(loaded, s)
    && forall k :: k in s.ports ==>
         && Match(r, s.ports[k].portName) == Some(Owner(k, s.ports[k].labId, s.ports[k].nodeName))
         && s.ports[k].tag == r.tags[s.ports[k].portName]
  }

  lemma TrackKeepsOrder(s: Manager, key: Key, port: Port)
    requires WellOrdered(s)
    ensures WellOrdered(TrackPort(s, key, port))
  {
  }

  /** From `s` without ports, the first `k` veths have been read into `s'`. */
  ghost predicate ReadInto(s: Manager, s': Manager, r: Reading, names: seq<string>, k: nat)
    requires k <= |names|
  {
    && Mirrors(s.vlans.tags, s', r) && s'.links == s.links && s'.bridge == s.bridge && s'.vlans.next == s.vlans.next
    && (forall i :: 0 <= i < k && Match(r, names[i]).Some? ==> Match(r, names[i]).value.key in s'.ports)
    && (forall q :: q in s'.ports ==> s'.ports[q].portName in names)
  }

  lemma ReservedOneMore(loaded: map<Key, int>, s: Manager, r: Reading, name: string)
    requires ReservedOver(loaded, s)
    ensures ReservedOver(loaded, DiscoverPort(s, r, name))
  {
    if Match(r, name).Some? {
      assert DiscoverPort(s, r, name).vlans.tags == s.vlans.tags[Match(r, name).value.key := r.tags[name]];
    }
  }

  lemma MirrorsOneMore(loaded: map<Key, int>, s: Manager, r: Reading, name: string)
    requires Mirrors(loaded, s, r)
    ensures Mirrors(loaded, DiscoverPort(s, r, name), r)
  {
    ReservedOneMore(loaded, s, r, name);
    if Match(r, name).Some? {
      var o := Match(r, name).value;
      TrackKeepsOrder(s.(vlans := s.vlans.(tags := s.vlans.tags[o.key := r.tags[name]])), o.key,
                      Port(name, r.tags[name], o.labId, o.nodeName));
    }
  }

  lemma ReadOneMore(s: Manager, s1: Manager, r: Reading, names: seq<string>, k: nat)
    requires k < |names| && ReadInto(s, s1, r, names, k)
    ensures ReadInto(s, DiscoverPort(s1, r, names[k]), r, names, k + 1)
  {
    MirrorsOneMore(s.vlans.tags, s1, r, names[k]);
    assert names[k] in names;
  }

  ghost predicate KeptByReading(r: Reading, names: seq<string>, p: (Manager, nat) -> bool) {
    forall t, i :: 0 <= i < |names| && p(t, i) ==> p(DiscoverPort(t, r, names[i]), i + 1)
  }

  lemma {:induction false} ReadingsKeep(s: Manager, r: Reading, names: seq<string>, k: nat, p: (Manager, nat) -> bool)
    requires k <= |names| && p(s, 0) && KeptByReading(r, names, p)
    ensures p(DiscoverPorts(s, r, names, k), k)
  {
    if k > 0 { ReadingsKeep(s, r, names, k - 1, p); }
  }

  lemma DiscoveredPorts(s: Manager, r: Reading, names: seq<string>, k: nat)
    requires k <= |names| && WellOrdered(s) && s.ports == map[]
    ensures ReadInto(s, DiscoverPorts(s, r, names, k), r, names, k)
  {
    var p := (t: Manager, i: nat) => i <= |names| && ReadInto(s, t, r, names, i);
    forall t, i | 0 <= i < |names| && p(t, i) ensures p(DiscoverPort(t, r, names[i]), i + 1) {
      ReadOneMore(s, t, r, names, i);
    }
    ReadingsKeep(s, r, names, k, p);
  }

  // ---- Links ----

  lemma {:induction false} KeysWithTagMembers(ports: map<Key, Port>, order: seq<Key>, tag: int)
    ensures forall k :: k in KeysWithTag(ports, order, tag) <==> k in order && k in ports && ports[k].tag == tag
    ensures NoRepeats(order) ==> NoRepeats(KeysWithTag(ports, order, tag))
  {
    if order != [] {
      var front := order[..|order| - 1];
      KeysWithTagMembers(ports, front, tag);
      assert order == front + [order[|order| - 1]];
      if NoRepeats(order) {
        assert NoRepeats(front) && order[|order| - 1] !in front;
      }
    }
  }

  lemma {:induction false} TagsInOrderMembers(ports: map<Key, Port>, order: seq<Key>)
    requires forall k :: k in order ==> k in ports
    ensures forall t :: t in TagsInOrder(ports, order) <==> exists k :: k in order && ports[k].tag == t
  {
    if order != [] {
      var front, last := order[..|order| - 1], order[|order| - 1];
      TagsInOrderMembers(ports, front);
      assert order == front + [last];
    }
  }

  /** The two keys are the only ones with their tag, in tracking order. */
  ghost predicate OnlyTwo(s: Manager, p: (Key, Key)) {
    p.0 in s.ports && KeysWithTag(s.ports, s.order, s.ports[p.0].tag) == [p.0, p.1]
  }

  /** The links are those between the only two ports of one of the tags. */
  ghost predicate LinkedFor(s: Manager, links: seq<Link>, tags: seq<int>) {
    forall p :: p in Pairs(links) <==> OnlyTwo(s, p) && s.ports[p.0].tag in tags
  }

  lemma LinkedOneMore(s: Manager, s1: Manager, tags: seq<int>, tag: int)
    requires WellOrdered(s) && s1 == s.(links := s1.links) && LinkedFor(s, s1.links, tags)
    ensures LinkedFor(s, DiscoverLink(s1, tag).links, tags + [tag])
  {
    var keys := KeysWithTag(s.ports, s.order, tag);
    KeysWithTagMembers(s.ports, s.order, tag);
    if |keys| == 2 {
      assert keys[0] in keys;
      PairsAfterAdd(s1.links, Link(s1.ports[keys[0]].labId, keys[0], keys[1], tag));
      assert keys == [keys[0], keys[1]];
    }
    forall p | OnlyTwo(s, p) && s.ports[p.0].tag == tag ensures |keys| == 2 && p == (keys[0], keys[1]) {
      assert keys == [p.0, p.1];
    }
  }

  lemma {:induction false} DiscoveredLinks(s: Manager, tags: seq<int>, k: nat)
    requires k <= |tags| && WellOrdered(s) && s.links == []
    ensures LinkedFor(s, DiscoverLinks(s, tags, k).links, tags[..k])
  {
    if k == 0 {
      assert tags[..0] == [];
    } else {
      DiscoveredLinks(s, tags, k - 1);
      LinkedOneMore(s, DiscoverLinks(s, tags, k - 1), tags[..k - 1], tags[k - 1]);
      assert tags[..k] == tags[..k - 1] + [tags[k - 1]];
    }
  }

  /** `a` and `b` are tracked, share a tag, and no third port has it. */
  ghost predicate ShareAlone(s: Manager, a: Key, b: Key) {
    && a != b && a in s.ports && b in s.ports && s.ports[a].tag == s.ports[b].tag
    && forall c :: c in s.ports && s.ports[c].tag == s.ports[a].tag ==> c == a || c == b
  }

  lemma TwoAlone(s: Manager, keys: seq<Key>, a: Key, b: Key)
    requires WellOrdered(s) && ShareAlone(s, a, b) && keys == KeysWithTag(s.ports, s.order, s.ports[a].tag)
    ensures keys == [a, b] || keys == [b, a]
  {
    KeysWithTagMembers(s.ports, s.order, s.ports[a].tag);
    assert a in keys && b in keys && forall i :: 0 <= i < |keys| ==> keys[i] in keys;
    var i :| 0 <= i < |keys| && keys[i] == a;
    var j :| 0 <= j < |keys| && keys[j] == b;
    ThirdKey(keys, a, b);
  }

  lemma ThirdKey(keys: seq<Key>, a: Key, b: Key)
    ensures |keys| > 2 && NoRepeats(keys) ==> exists c :: c in keys && c != a && c != b
  {
    if |keys| > 2 && NoRepeats(keys) {
      var m := if keys[0] != a && keys[0] != b then 0 else if keys[1] != a && keys[1] != b then 1 else 2;
      assert keys[m] in keys;
    }
  }

  lemma OnlyTwoIsAlone(s: Manager, p: (Key, Key))
    requires WellOrdered(s) && OnlyTwo(s, p)
    ensures ShareAlone(s, p.0, p.1)
  {
    var keys := KeysWithTag(s.ports, s.order, s.ports[p.0].tag);
    KeysWithTagMembers(s.ports, s.order, s.ports[p.0].tag);
    assert keys[0] == p.0 && keys[1] == p.1;
    assert p.0 in keys && p.1 in keys;
  }

  // ---- Main result ----

  /** Discovery after the allocator has loaded its file: every matched veth is tracked and reserved with
      the tag it has on the bridge, whatever the file said about its key, and the other loaded
      reservations stay.  So the reservations are those of the tracked ports if and only if every loaded
      key was discovered.  Two ports are linked if and only if they are the only two with their tag.  The
      discovered links are point-to-point with agreeing tags, so that the restart results apply. */
  lemma DiscoveryContract(s: Manager, r: Reading)
    requires s.ports == map[] && s.order == [] && s.links == [] && VLAN_START <= s.vlans.next <= VLAN_END
    ensures var s' := Discover(s, r);
            && WellOrdered(s') && LinksTracked(s') && ReservedOver(s.vlans.tags, s')
            && (Book(s') <==> s.vlans.tags.Keys <= s'.ports.Keys)
            && (FullyReserved(s') <==> s.vlans.tags.Keys <= s'.ports.Keys)
            && (r.names.Some? ==>
                  forall n :: n in VethNames(r.names.value) && Match(r, n).Some? ==> Match(r, n).value.key in s'.ports)
            && (forall k :: k in s'.ports ==>
                  && Match(r, s'.ports[k].portName) == Some(Owner(k, s'.ports[k].labId, s'.ports[k].nodeName))
                  && s'.ports[k].tag == r.tags[s'.ports[k].portName])
            && (forall a, b :: (a, b) in Pairs(s'.links) || (b, a) in Pairs(s'.links) <==> ShareAlone(s', a, b))
            && TagsAgree(s') && PointToPoint(Pairs(s'.links))
  {
    if r.names.Some? && VethNames(r.names.value) != [] {
      var names := VethNames(r.names.value);
      DiscoveredPorts(s, r, names, |names|);
      var s1 := DiscoverPorts(s, r, names, |names|);
      DiscoverLinksContract(s1);
    } else {
      EmptyPairs(s);
    }
    ReservedForPorts(s.vlans.tags, Discover(s, r));
  }

  // ---- The ports, told from the reading alone ----

  /** The reading says that `n` is the host side of the interface `key`: it has a tag, and its ifindex is
      the peer of that container interface. */
  ghost predicate Belongs(r: Reading, n: string, key: Key) {
    && "vh" <= n && n in r.tags && n in r.ifindex && r.ifindex[n] != ""
    && r.ifindex[n] in r.owners && r.owners[r.ifindex[n]].key == key
  }

  /** `n` is the last of the names that belongs to `key`. */
  ghost predicate LastFor(r: Reading, names: seq<string>, n: string, key: Key) {
    exists j :: LastAt(r, names, j, n, key)
  }

  ghost predicate LastAt(r: Reading, names: seq<string>, j: int, n: string, key: Key) {
    && 0 <= j < |names| && names[j] == n && Belongs(r, n, key)
    && forall i :: j < i < |names| ==> !Belongs(r, names[i], key)
  }

  lemma {:induction false} VethNamesMembers(names: seq<string>)
    ensures forall n :: n in VethNames(names) <==> n in names && "vh" <= n
  {
    if names != [] {
      VethNamesMembers(names[1..]);
      assert names == [names[0]] + names[1..];
    }
  }

  lemma {:induction false} LastOfVethNames(r: Reading, names: seq<string>, n: string, key: Key)
    requires LastFor(r, VethNames(names), n, key)
    ensures LastFor(r, names, n, key)
  {
    var veths, rest := VethNames(names), names[1..];
    var j :| LastAt(r, veths, j, n, key);
    if "vh" <= names[0] && j == 0 {
      NoneOfVethNames(r, rest, key, veths);
      assert LastAt(r, names, 0, n, key);
    } else {
      var front := if "vh" <= names[0] then 1 else 0;
      assert VethNames(rest) == veths[front..];
      assert LastAt(r, VethNames(rest), j - front, n, key);
      LastOfVethNames(r, rest, n, key);
      var i :| LastAt(r, rest, i, n, key);
      assert LastAt(r, names, i + 1, n, key);
    }
  }

  lemma NoneOfVethNames(r: Reading, rest: seq<string>, key: Key, veths: seq<string>)
    requires veths != [] && veths[1..] == VethNames(rest) && forall i :: 0 < i < |veths| ==> !Belongs(r, veths[i], key)
    ensures forall i :: 0 <= i < |rest| ==> !Belongs(r, rest[i], key)
  {
    VethNamesMembers(rest);
    forall i | 0 <= i < |rest| && "vh" <= rest[i] ensures !Belongs(r, rest[i], key) {
      assert rest[i] in veths[1..];
    }
  }

  /** Every tracked port is the last one read for its key. */
  ghost predicate LastRead(s: Manager, r: Reading, names: seq<string>) {
    forall q :: q in s.ports ==> LastFor(r, names, s.ports[q].portName, q)
  }

  lemma LastOneMore(s: Manager, r: Reading, names: seq<string>, name: string)
    requires LastRead(s, r, names) && "vh" <= name
    ensures LastRead(DiscoverPort(s, r, name), r, names + [name])
  {
    var s', more := DiscoverPort(s, r, name), names + [name];
    forall q | q in s'.ports ensures LastFor(r, more, s'.ports[q].portName, q) {
      if Match(r, name).Some? && Match(r, name).value.key == q {
        assert LastAt(r, more, |names|, name, q);
      } else {
        var j :| LastAt(r, names, j, s.ports[q].portName, q);
        assert LastAt(r, more, j, s.ports[q].portName, q);
      }
    }
  }

  lemma LastPorts(s: Manager, r: Reading, names: seq<string>)
    requires s.ports == map[] && forall i :: 0 <= i < |names| ==> "vh" <= names[i]
    ensures LastRead(DiscoverPorts(s, r, names, |names|), r, names)
  {
    var p := (t: Manager, i: nat) => i <= |names| && LastRead(t, r, names[..i]);
    forall t, i | 0 <= i < |names| && p(t, i) ensures p(DiscoverPort(t, r, names[i]), i + 1) {
      LastOneMore(t, r, names[..i], names[i]);
      assert names[..i + 1] == names[..i] + [names[i]];
    }
    ReadingsKeep(s, r, names, |names|, p);
    assert names[..|names|] == names;
  }

  /** Which ports are tracked, and with what, from what was read: an interface is tracked exactly when one
      of the listed vh ports belongs to it; the last such port is the one that counts, with its tag on
      the bridge and with the lab and node of the container. */
  lemma DiscoveredFromReading(s: Manager, r: Reading)
    requires s.ports == map[] && s.order == [] && s.links == [] && VLAN_START <= s.vlans.next <= VLAN_END
    ensures var s' := Discover(s, r);
            && (forall k :: k in s'.ports <==> r.names.Some? && exists n :: n in r.names.value && Belongs(r, n, k))
            && (forall k :: k in s'.ports ==>
                  var p := s'.ports[k];
                  && LastFor(r, r.names.value, p.portName, k) && p.tag == r.tags[p.portName]
                  && p.labId == r.owners[r.ifindex[p.portName]].labId
                  && p.nodeName == r.owners[r.ifindex[p.portName]].nodeName)
  {
    var s' := Discover(s, r);
    DiscoveryContract(s, r);
    if r.names.Some? {
      var names := r.names.value;
      VethNamesMembers(names);
      if VethNames(names) != [] {
        assert forall i :: 0 <= i < |VethNames(names)| ==> VethNames(names)[i] in VethNames(names);
        LastPorts(s, r, VethNames(names));
        assert s'.ports == DiscoverPorts(s, r, VethNames(names), |VethNames(names)|).ports;
      }
      forall k | k in s'.ports ensures LastFor(r, names, s'.ports[k].portName, k) {
        LastOfVethNames(r, names, s'.ports[k].portName, k);
      }
      forall n, k | n in names && Belongs(r, n, k) ensures k in s'.ports {
        assert Match(r, n).Some? && Match(r, n).value.key == k && n in VethNames(names);
      }
    }
  }

  // ---- The link records ----

  ghost predicate Before(order: seq<Key>, a: Key, b: Key) {
    exists i, j :: 0 <= i < j < |order| && order[i] == a && order[j] == b
  }

  lemma {:induction false} KeysInOrder(ports: map<Key, Port>, order: seq<Key>, tag: int, i: nat, j: nat)
    requires i < j < |KeysWithTag(ports, order, tag)|
    ensures var keys := KeysWithTag(ports, order, tag); Before(order, keys[i], keys[j])
  {
    var front, last := order[..|order| - 1], order[|order| - 1];
    var keys := KeysWithTag(ports, front, tag);
    if j < |keys| {
      KeysInOrder(ports, front, tag, i, j);
      var p, q :| 0 <= p < q < |front| && front[p] == keys[i] && front[q] == keys[j];
      assert order[p] == keys[i] && order[q] == keys[j];
    } else {
      KeysWithTagMembers(ports, front, tag);
      assert keys[i] in front;
      var p :| 0 <= p < |front| && front[p] == keys[i];
      assert order[p] == keys[i] && order[|order| - 1] == last;
    }
  }

  /** The first of the two ports gives the record its lab; the tag is the shared one. */
  ghost predicate Recorded(s: Manager, l: Link) {
    && l.a in s.ports && l.labId == s.ports[l.a].labId && l.tag == s.ports[l.a].tag && Before(s.order, l.a, l.b)
  }

  lemma RecordedOneMore(s: Manager, s1: Manager, tag: int)
    requires s1 == s.(links := s1.links) && forall l :: l in s1.links ==> Recorded(s, l)
    ensures forall l :: l in DiscoverLink(s1, tag).links ==> Recorded(s, l)
  {
    var keys := KeysWithTag(s.ports, s.order, tag);
    if |keys| == 2 && keys[0] in s.ports {
      KeysWithTagMembers(s.ports, s.order, tag);
      KeysInOrder(s.ports, s.order, tag, 0, 1);
      assert keys[0] in keys;
      AddLinkMembers(s1.links, Link(s.ports[keys[0]].labId, keys[0], keys[1], tag));
    }
  }

  lemma {:induction false} LinksAreRecorded(s: Manager, tags: seq<int>, k: nat)
    requires k <= |tags| && s.links == []
    ensures forall l :: l in DiscoverLinks(s, tags, k).links ==> Recorded(s, l)
  {
    if k > 0 {
      LinksAreRecorded(s, tags, k - 1);
      RecordedOneMore(s, DiscoverLinks(s, tags, k - 1), tags[k - 1]);
    }
  }

  /** Every discovered link starts at the port tracked first, and carries that port's lab and tag. */
  lemma DiscoveredLinkRecords(s: Manager, r: Reading)
    requires s.ports == map[] && s.order == [] && s.links == []
    ensures var s' := Discover(s, r); forall l :: l in s'.links ==> Recorded(s', l)
  {
    if r.names.Some? && VethNames(r.names.value) != [] {
      var names := VethNames(r.names.value);
      var s1 := DiscoverPorts(s, r, names, |names|);
      var tags := TagsInOrder(s1.ports, s1.order);
      DiscoveredPorts(s, r, names, |names|);
      LinksAreRecorded(s1, tags, |tags|);
      var s' := Discover(s, r);
      assert s'.ports == s1.ports && s'.order == s1.order;
    }
  }

  lemma ReservedForPorts(loaded: map<Key, int>, s: Manager)
    requires ReservedOver(loaded, s)
    ensures Reservations(s) <==> loaded.Keys <= s.ports.Keys
    ensures FullyReserved(s) <==> loaded.Keys <= s.ports.Keys
  {
    forall k | k in loaded && k !in s.ports ensures !Reservations(s) && !FullyReserved(s) {
      assert k in s.vlans.tags;
    }
    if loaded.Keys <= s.ports.Keys { assert s.vlans.tags.Keys == s.ports.Keys; }
  }

  lemma EmptyPairs(s: Manager)
    requires s.ports == map[] && s.links == []
    ensures forall a, b :: (a, b) !in Pairs(s.links) && !ShareAlone(s, a, b)
  {
  }

  lemma DiscoverLinksContract(s: Manager)
    requires WellOrdered(s) && s.links == []
    ensures var tags := TagsInOrder(s.ports, s.order);
            var s' := DiscoverLinks(s, tags, |tags|);
            && s' == s.(links := s'.links) && LinksTracked(s')
            && (forall a, b :: (a, b) in Pairs(s'.links) || (b, a) in Pairs(s'.links) <==> ShareAlone(s', a, b))
            && TagsAgree(s') && PointToPoint(Pairs(s'.links))
  {
    var tags := TagsInOrder(s.ports, s.order);
    var s' := DiscoverLinks(s, tags, |tags|);
    DiscoveredLinks(s, tags, |tags|);
    TagsInOrderMembers(s.ports, s.order);
    assert tags[..|tags|] == tags;
    forall p | p in Pairs(s'.links) ensures ShareAlone(s, p.0, p.1) { OnlyTwoIsAlone(s, p); }
    forall a, b | ShareAlone(s, a, b) ensures (a, b) in Pairs(s'.links) || (b, a) in Pairs(s'.links) {
      TwoAlone(s, KeysWithTag(s.ports, s.order, s.ports[a].tag), a, b);
      assert OnlyTwo(s, (a, b)) || OnlyTwo(s, (b, a));
    }
    forall l | l in s'.links ensures l.a in s.ports && l.b in s.ports { assert (l.a, l.b) in Pairs(s'.links); }
    PairsAreApart(s, Pairs(s'.links));
  }

  lemma TouchingIsSame(s: Manager, p: (Key, Key), q: (Key, Key))
    requires OnlyTwo(s, p) && ShareAlone(s, p.0, p.1) && OnlyTwo(s, q) && ShareAlone(s, q.0, q.1)
    ensures PairTouches(p, q.0) || PairTouches(p, q.1) ==> p == q
  {
    if PairTouches(p, q.0) || PairTouches(p, q.1) {
      assert s.ports[p.0].tag == s.ports[q.0].tag;
      var keys := KeysWithTag(s.ports, s.order, s.ports[p.0].tag);
      assert keys[0] == p.0 == q.0 && keys[1] == p.1 == q.1;
    }
  }

  lemma PairsAreApart(s: Manager, pairs: set<(Key, Key)>)
    requires forall p :: p in pairs ==> OnlyTwo(s, p) && ShareAlone(s, p.0, p.1)
    ensures PointToPoint(pairs)
  {
    forall p, q | p in pairs && q in pairs ensures PairTouches(p, q.0) || PairTouches(p, q.1) ==> p == q {
      TouchingIsSame(s, p, q);
    }
  }
}
