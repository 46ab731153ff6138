/** The carrier monitor: an incremental detector of link-state changes, against what can be said from the
    whole history of its polls (agent/network/carrier_monitor.py). */
module CarrierMonitor {

  /** An empty node name stands for a missing one. */
  datatype MonitoredPort = MonitoredPort(portName: string, container: string, iface: string, labId: string,
                                        nodeName: string)

  datatype Event = Event(labId: string, node: string, iface: string, carrierOn: bool)

  // ---- Which ports are managed ----

  datatype Endpoint = Endpoint(hostVeth: string, networkId: string, container: string, iface: string, nodeName: string)

  function Monitored(e: Endpoint, labOf: map<string, string>): (ports: seq<MonitoredPort>) {
    if e.hostVeth == "" || e.networkId !in labOf || labOf[e.networkId] == "" then []
    else [MonitoredPort(e.hostVeth, e.container, e.iface, labOf[e.networkId], e.nodeName)]
  }

  /** All candidate ports in the order in which later ones win: OVS manager, Docker plugin, VM taps. */
  function Candidates(ovs: seq<MonitoredPort>, endpoints: seq<Endpoint>, labOf: map<string, string>,
                      taps: seq<MonitoredPort>): seq<MonitoredPort> {
    ovs + EndpointPorts(endpoints, labOf) + taps
  }

  function EndpointPorts(endpoints: seq<Endpoint>, labOf: map<string, string>): seq<MonitoredPort> {
    if endpoints == [] then []
    else EndpointPorts(endpoints[..|endpoints| - 1], labOf) + Monitored(endpoints[|endpoints| - 1], labOf)
  }

  /** Every candidate's name is there, with the last candidate of that name. */
  ghost predicate LastWins(ports: map<string, MonitoredPort>, all: seq<MonitoredPort>) {
    && (forall p <- all :: p.portName in ports)
    && (forall n <- ports :: exists i :: 0 <= i < |all| && all[i] == ports[n] && n == all[i].portName
                                      && forall j :: i < j < |all| ==> all[j].portName != n)
  }

  lemma LastWinsAppend(ports: map<string, MonitoredPort>, all: seq<MonitoredPort>, p: MonitoredPort)
    requires LastWins(ports, all)
    ensures LastWins(ports[p.portName := p], all + [p])
  {
    var ports', all' := ports[p.portName := p], all + [p];
    forall n <- ports'
      ensures exists i :: 0 <= i < |all'| && all'[i] == ports'[n] && n == all'[i].portName
                       && forall j :: i < j < |all'| ==> all'[j].portName != n
    {
      if n == p.portName {
        assert all'[|all|] == ports'[n];
      } else {
        var i :| 0 <= i < |all| && all[i] == ports[n] && n == all[i].portName
                 && forall j :: i < j < |all| ==> all[j].portName != n;
        assert all'[i] == ports'[n];
      }
    }
  }

  method AddPorts(start: map<string, MonitoredPort>, ghost all: seq<MonitoredPort>, ports: seq<MonitoredPort>)
    returns (result: map<string, MonitoredPort>)
    requires LastWins(start, all)
    ensures LastWins(result, all + ports)
  {
    result := start;
    assert all + ports[..0] == all;
    for i := 0 to |ports|
      invariant LastWins(result, all + ports[..i])
    {
      LastWinsAppend(result, all + ports[..i], ports[i]);
      assert all + ports[..i + 1] == all + ports[..i] + [ports[i]];
      result := result[ports[i].portName := ports[i]];
    }
    assert ports[..|ports|] == ports;
  }

  method AddEndpoints(start: map<string, MonitoredPort>, ghost all: seq<MonitoredPort>, endpoints: seq<Endpoint>,
                      labOf: map<string, string>)
    returns (result: map<string, MonitoredPort>)
    requires LastWins(start, all)
    ensures LastWins(result, all + EndpointPorts(endpoints, labOf))
  {
    result := start;
    assert all + EndpointPorts(endpoints[..0], labOf) == all;
    for i := 0 to |endpoints|
      invariant LastWins(result, all + EndpointPorts(endpoints[..i], labOf))
    {
      var e := endpoints[i];
      ghost var before := all + EndpointPorts(endpoints[..i], labOf);
      assert endpoints[..i + 1][..i] == endpoints[..i];
      assert all + EndpointPorts(endpoints[..i + 1], labOf) == before + Monitored(e, labOf) && before + [] == before;
      if e.hostVeth == "" { continue; }
      if e.networkId !in labOf || labOf[e.networkId] == "" { continue; }
      var p := MonitoredPort(e.hostVeth, e.container, e.iface, labOf[e.networkId], e.nodeName);
      LastWinsAppend(result, before, p);
      result := result[e.hostVeth := p];
    }
    assert endpoints[..|endpoints|] == endpoints;
  }

  /** `p` is how a provisioned endpoint on a network with a lab is monitored. */
  ghost predicate MonitorsOne(p: MonitoredPort, endpoints: seq<Endpoint>, labOf: map<string, string>) {
    exists e :: e in endpoints && Monitors(p, e, labOf)
  }

  ghost predicate Monitors(p: MonitoredPort, e: Endpoint, labOf: map<string, string>) {
    && e.hostVeth != "" && e.networkId in labOf && labOf[e.networkId] != ""
    && p.portName == e.hostVeth && p.container == e.container && p.iface == e.iface
    && p.labId == labOf[e.networkId] && p.nodeName == e.nodeName
  }

  lemma {:induction false} EndpointPortsMembers(endpoints: seq<Endpoint>, labOf: map<string, string>)
    ensures forall p :: p in EndpointPorts(endpoints, labOf) <==> MonitorsOne(p, endpoints, labOf)
  {
    if endpoints != [] {
      var front, last := endpoints[..|endpoints| - 1], endpoints[|endpoints| - 1];
      EndpointPortsMembers(front, labOf);
      assert endpoints == front + [last];
      forall p ensures p in EndpointPorts(endpoints, labOf) <==> MonitorsOne(p, endpoints, labOf) {
        assert p in Monitored(last, labOf) <==> Monitors(p, last, labOf);
        assert MonitorsOne(p, endpoints, labOf) <==> MonitorsOne(p, front, labOf) || Monitors(p, last, labOf);
      }
    }
  }

  ghost predicate NamedIn(n: string, ports: seq<MonitoredPort>) { exists p :: p in ports && p.portName == n }

  ghost predicate NamedBy(n: string, endpoints: seq<Endpoint>, labOf: map<string, string>) {
    exists p :: MonitorsOne(p, endpoints, labOf) && p.portName == n
  }

  /** The name stands for a port of the strongest source that has it. */
  ghost predicate FromStrongest(n: string, p: MonitoredPort, ovs: seq<MonitoredPort>, endpoints: seq<Endpoint>,
                                labOf: map<string, string>, taps: seq<MonitoredPort>) {
    && p.portName == n
    && if NamedIn(n, taps) then p in taps
       else if NamedBy(n, endpoints, labOf) then MonitorsOne(p, endpoints, labOf)
       else p in ovs
  }

  lemma StrongestWins(result: map<string, MonitoredPort>, ovs: seq<MonitoredPort>, endpoints: seq<Endpoint>,
                      labOf: map<string, string>, taps: seq<MonitoredPort>)
    requires LastWins(result, Candidates(ovs, endpoints, labOf, taps))
    ensures forall n :: n in result <==> NamedIn(n, taps) || NamedBy(n, endpoints, labOf) || NamedIn(n, ovs)
    ensures forall n <- result :: FromStrongest(n, result[n], ovs, endpoints, labOf, taps)
  {
    var eps, all := EndpointPorts(endpoints, labOf), Candidates(ovs, endpoints, labOf, taps);
    EndpointPortsMembers(endpoints, labOf);
    assert forall p :: p in all <==> p in ovs || p in eps || p in taps;
    forall n <- result ensures FromStrongest(n, result[n], ovs, endpoints, labOf, taps) {
      var i :| 0 <= i < |all| && all[i] == result[n] && n == all[i].portName
               && forall j :: i < j < |all| ==> all[j].portName != n;
      LastIsStrongest(n, i, ovs, eps, taps);
    }
  }

  lemma LastIsStrongest(n: string, i: nat, ovs: seq<MonitoredPort>, eps: seq<MonitoredPort>, taps: seq<MonitoredPort>)
    requires var all := ovs + eps + taps;
             i < |all| && all[i].portName == n && forall j :: i < j < |all| ==> all[j].portName != n
    ensures var p := (ovs + eps + taps)[i];
            if NamedIn(n, taps) then p in taps else if NamedIn(n, eps) then p in eps else p in ovs
  {
    var all := ovs + eps + taps;
    forall k | 0 <= k < |taps| && i < |ovs| + |eps| ensures taps[k].portName != n {
      assert all[|ovs| + |eps| + k] == taps[k];
    }
    forall k | 0 <= k < |eps| && i < |ovs| ensures eps[k].portName != n {
      assert all[|ovs| + k] == eps[k];
    }
  }

  /** build_managed_ports: of several ports with one name the VM tap wins over the endpoint, and the
      endpoint over the OVS manager's port; within one source the last wins. */
  method BuildManagedPorts(ovs: seq<MonitoredPort>, endpoints: seq<Endpoint>, labOf: map<string, string>,
                           taps: seq<MonitoredPort>)
    returns (result: map<string, MonitoredPort>)
    ensures forall n :: n in result <==> NamedIn(n, taps) || NamedBy(n, endpoints, labOf) || NamedIn(n, ovs)
    ensures forall n <- result :: FromStrongest(n, result[n], ovs, endpoints, labOf, taps)
    ensures LastWins(result, Candidates(ovs, endpoints, labOf, taps))
  {
    assert [] + ovs == ovs;
    result := AddPorts(map[], [], ovs);
    result := AddEndpoints(result, ovs, endpoints, labOf);
    result := AddPorts(result, ovs + EndpointPorts(endpoints, labOf), taps);
    StrongestWins(result, ovs, endpoints, labOf, taps);
  }

  // ---- One poll ----

  function Prefix(s: string, n: nat): string { if |s| <= n then s else s[..n] }

  /** _container_to_node. */
  function NodeOf(container: string, labId: string): string {
    var docker := "archetype-" + Prefix(labId, 20) + "-";
    var vm := "arch-" + Prefix(labId, 20) + "-";
    if docker <= container then container[|docker|..]
    else if vm <= container then container[|vm|..]
    else container
  }

  /** How a node's container, or virtual machine, is called: by the first twenty characters of the lab. */
  ghost predicate IsNameOf(container: string, labId: string, node: string) {
    var lab := if |labId| <= 20 then labId else labId[..20];
    container == "archetype-" + lab + "-" + node || container == "arch-" + lab + "-" + node
  }

  /** Names built from lab and node are taken apart again; any other name stands for itself. */
  lemma NodeOfInvertsNaming(container: string, labId: string)
    ensures forall node :: IsNameOf(container, labId, node) ==> NodeOf(container, labId) == node
    ensures (forall node :: !IsNameOf(container, labId, node)) ==> NodeOf(container, labId) == container
  {
    var docker := "archetype-" + Prefix(labId, 20) + "-";
    var vm := "arch-" + Prefix(labId, 20) + "-";
    forall node | IsNameOf(container, labId, node) ensures NodeOf(container, labId) == node {
      BuiltNameIsTakenApart(labId, node);
    }
    if docker <= container { assert IsNameOf(container, labId, container[|docker|..]); }
    if vm <= container { assert IsNameOf(container, labId, container[|vm|..]); }
  }

  lemma BuiltNameIsTakenApart(labId: string, node: string)
    ensures NodeOf("archetype-" + Prefix(labId, 20) + "-" + node, labId) == node
    ensures NodeOf("arch-" + Prefix(labId, 20) + "-" + node, labId) == node
  {
    var docker := "archetype-" + Prefix(labId, 20) + "-";
    var vm := "arch-" + Prefix(labId, 20) + "-";
    assert docker <= docker + node && (docker + node)[|docker|..] == node;
    assert vm <= vm + node && (vm + node)[|vm|..] == node;
    assert docker[4] == 'e' && (vm + node)[4] == '-';
  }

  function EventOf(p: MonitoredPort, state: string): Event {
    Event(p.labId, if p.nodeName == "" then NodeOf(p.container, p.labId) else p.nodeName, p.iface, state == "up")
  }

  /** What a change of `p` to `state` must be announced as: on exactly when the state is "up"; with the port's
      own lab, interface and node; without a node, the one its container is named after. */
  ghost predicate Announces(e: Event, p: MonitoredPort, state: string) {
    && (e.carrierOn <==> state == "up") && e.labId == p.labId && e.iface == p.iface
    && (p.nodeName != "" ==> e.node == p.nodeName)
    && (p.nodeName == "" ==>
          && (forall node :: IsNameOf(p.container, p.labId, node) ==> e.node == node)
          && ((forall node :: !IsNameOf(p.container, p.labId, node)) ==> e.node == p.container))
  }

  lemma EventAnnounces(p: MonitoredPort, state: string)
    ensures Announces(EventOf(p, state), p, state)
  {
    NodeOfInvertsNaming(p.container, p.labId);
  }

  /** What a poll observes of the managed ports. */
  function Observed(states: map<string, string>, managed: set<string>): map<string, string> {
    map p | p in states && p in managed :: states[p]
  }

  /** The ports seen both before and now, in different states. */
  function Changed(last: map<string, string>, now: map<string, string>): set<string> {
    set p | p in now && p in last && last[p] != now[p]
  }

  /** Each port of the set once, with its state. */
  ghost predicate Lists(notes: seq<(string, string)>, ports: set<string>, states: map<string, string>) {
    && (forall i :: 0 <= i < |notes| ==>
          notes[i].0 in ports && notes[i].0 in states && notes[i].1 == states[notes[i].0])
    && (forall p <- ports :: exists i :: 0 <= i < |notes| && notes[i].0 == p)
    && (forall i, j :: 0 <= i < j < |notes| ==> notes[i].0 != notes[j].0)
  }

  ghost predicate Noted(notes: seq<(string, string)>, p: string) { exists i :: 0 <= i < |notes| && notes[i].0 == p }

  lemma ListedAreNoted(notes: seq<(string, string)>, ports: set<string>, states: map<string, string>)
    requires Lists(notes, ports, states)
    ensures forall p :: Noted(notes, p) <==> p in ports
  {
  }

  /** The table once the ports of `done` are brought up to date. */
  function Updated(was: map<string, string>, states: map<string, string>, done: set<string>): map<string, string> {
    map p | p in was.Keys + states.Keys && (if p in done then p in states else p in was) ::
      if p in done then states[p] else was[p]
  }

  lemma UpdatedOneMore(was: map<string, string>, states: map<string, string>, done: set<string>, p: string)
    requires p !in done
    ensures var last := Updated(was, states, done);
            && (p in last <==> p in was) && (p in last ==> last[p] == was[p])
            && Updated(was, states, done + {p}) == if p in states then last[p := states[p]] else last - {p}
  {
  }

  lemma ChangedOneMore(was: map<string, string>, states: map<string, string>, done: set<string>, p: string)
    requires p !in done
    ensures Changed(was, Observed(states, done + {p}))
         == Changed(was, Observed(states, done)) + if p in states && p in was && was[p] != states[p] then {p} else {}
    ensures p !in Changed(was, Observed(states, done))
  {
  }

  class Monitor {
    var last: map<string, string>

    constructor ()
      ensures last == map[]
    {
      last := map[];
    }

    /** _seed_initial_state. */
    method SeedInitialState(states: map<string, string>, managed: set<string>)
      modifies this
      ensures last == old(last) + Observed(states, managed)
      ensures forall p :: p in states && p in managed ==> p in last && last[p] == states[p]
    {
      var todo := states.Keys;
      while todo != {}
        invariant todo <= states.Keys
        invariant last == old(last) + Observed(states, managed - todo)
        decreases |todo|
      {
        var p :| p in todo;
        todo := todo - {p};
        if p in managed { last := last[p := states[p]]; }
      }
      assert Observed(states, managed - {}) == Observed(states, managed);
    }

    method DetectOne(states: map<string, string>, p: string, ghost was: map<string, string>, ghost done: set<string>,
                     notes: seq<(string, string)>)
      returns (notes': seq<(string, string)>)
      requires p !in done && last == Updated(was, states, done)
      requires Lists(notes, Changed(was, Observed(states, done)), states)
      modifies this
      ensures last == Updated(was, states, done + {p})
      ensures Lists(notes', Changed(was, Observed(states, done + {p})), states)
    {
      UpdatedOneMore(was, states, done, p);
      ChangedOneMore(was, states, done, p);
      notes' := notes;
      if p !in states {
        last := last - {p};
      } else if p !in last {
        last := last[p := states[p]];
      } else if states[p] != last[p] {
        ListOneMore(notes, Changed(was, Observed(states, done)), p, states);
        last := last[p := states[p]];
        notes' := notes + [(p, states[p])];
      }
    }

    /** The first loop of _poll_once: bring every managed port up to date and note the changes. */
    method Detect(states: map<string, string>, managed: set<string>) returns (notes: seq<(string, string)>)
      modifies this
      ensures last == Updated(old(last), states, managed)
      ensures Lists(notes, Changed(old(last), Observed(states, managed)), states)
    {
      notes := [];
      ghost var was, done: set<string> := last, {};
      var todo := managed;
      while todo != {}
        invariant todo + done == managed && todo !! done
        invariant last == Updated(was, states, done) && Lists(notes, Changed(was, Observed(states, done)), states)
        decreases |todo|
      {
        var p :| p in todo;
        todo := todo - {p};
        notes := DetectOne(states, p, was, done, notes);
        done := done + {p};
      }
      assert done == managed;
    }

    /** The second loop: forget the ports that are no longer managed. */
    method Prune(managed: set<string>)
      modifies this
      ensures last == map p | p in old(last) && p in managed :: old(last)[p]
    {
      var stale := last.Keys - managed;
      while stale != {}
        invariant stale == last.Keys - managed
        invariant forall p <- managed :: (p in last <==> p in old(last)) && (p in last ==> last[p] == old(last)[p])
        decreases |stale|
      {
        var p :| p in stale;
        last := last - {p};
        stale := stale - {p};
      }
      forall p <- last ensures p in managed {
        assert p !in last.Keys - managed;
      }
    }

    /** _poll_once: the table becomes what was observed, and every port that was already known and now
        differs is reported, once. */
    method PollOnce(states: map<string, string>, ports: map<string, MonitoredPort>)
      returns (notes: seq<(string, string)>, events: seq<Event>)
      modifies this
      ensures last == Observed(states, ports.Keys)
      ensures forall p :: (p in last <==> p in states && p in ports) && (p in last ==> last[p] == states[p])
      ensures Lists(notes, Changed(old(last), last), states)
      ensures forall p :: Noted(notes, p) <==> p in old(last) && p in last && old(last)[p] != last[p]
      ensures forall i :: 0 <= i < |notes| ==> notes[i].0 in states && notes[i].1 == states[notes[i].0]
      ensures |events| == |notes| && forall i :: 0 <= i < |notes| ==>
                notes[i].0 in ports && Announces(events[i], ports[notes[i].0], notes[i].1)
    {
      notes := Detect(states, ports.Keys);
      Prune(ports.Keys);
      assert last == Observed(states, ports.Keys);
      events := [];
      for i := 0 to |notes|
        invariant last == Observed(states, ports.Keys)
        invariant |events| == i && forall j :: 0 <= j < i ==>
                    notes[j].0 in ports && Announces(events[j], ports[notes[j].0], notes[j].1)
      {
        assert notes[i].0 in Observed(states, ports.Keys);
        EventAnnounces(ports[notes[i].0], notes[i].1);
        events := events + [EventOf(ports[notes[i].0], notes[i].1)];
      }
      ListedAreNoted(notes, Changed(old(last), last), states);
    }
  }

  lemma ListOneMore(notes: seq<(string, string)>, ports: set<string>, p: string, states: map<string, string>)
    requires Lists(notes, ports, states) && p !in ports && p in states
    ensures Lists(notes + [(p, states[p])], ports + {p}, states)
  {
    var more := notes + [(p, states[p])];
    forall q <- ports + {p} ensures exists i :: 0 <= i < |more| && more[i].0 == q {
      if q == p {
        assert more[|notes|].0 == p;
      } else {
        var i :| 0 <= i < |notes| && notes[i].0 == q;
        assert more[i].0 == q;
      }
    }
  }

  // ---- The history ----

  /** One poll: what OVS answered (nothing, when the query failed) and the managed ports. */
  datatype Poll = Poll(states: map<string, string>, managed: set<string>)

  function Sees(poll: Poll): map<string, string> { Observed(poll.states, poll.managed) }

  /** The table after the polls, from `start`. */
  function TableAfter(start: map<string, string>, polls: seq<Poll>): map<string, string> {
    if polls == [] then start else Sees(polls[|polls| - 1])
  }

  /** What the polls report about one port, in order. */
  function Reports(start: map<string, string>, polls: seq<Poll>, port: string): seq<string> {
    if polls == [] then []
    else
      var before := polls[..|polls| - 1];
      var now := Sees(polls[|polls| - 1]);
      Reports(start, before, port) + if port in Changed(TableAfter(start, before), now) then [now[port]] else []
  }

  /** A history without its repetitions: every element that differs from the one before it. */
  function Changes(first: string, states: seq<string>): seq<string>
    decreases states
  {
    if states == [] then []
    else if states[0] == first then Changes(first, states[1..])
    else [states[0]] + Changes(states[0], states[1..])
  }

  function Last(first: string, states: seq<string>): string {
    if states == [] then first else states[|states| - 1]
  }

  lemma {:induction false} ChangesAppend(first: string, states: seq<string>, s: string)
    ensures Changes(first, states + [s]) == Changes(first, states) + if s == Last(first, states) then [] else [s]
    decreases states
  {
    if states == [] {
      assert [s][1..] == [];
    } else {
      assert (states + [s])[1..] == states[1..] + [s] && (states + [s])[0] == states[0];
      ChangesAppend(states[0], states[1..], s);
      if states[0] == first { assert Changes(first, states + [s]) == Changes(states[0], states[1..] + [s]); }
    }
  }

  lemma {:induction false} ChangesEndAtLast(first: string, states: seq<string>)
    ensures Last(first, Changes(first, states)) == Last(first, states)
    decreases states
  {
    if states != [] {
      ChangesEndAtLast(states[0], states[1..]);
      var tail := Changes(states[0], states[1..]);
      assert Last(states[0], states[1..]) == Last(first, states);
    }
  }

  /** The port is managed and visible in every poll, in these states. */
  ghost predicate SeenThroughout(polls: seq<Poll>, port: string, states: seq<string>) {
    |states| == |polls| && forall i :: 0 <= i < |polls| ==> port in Sees(polls[i]) && Sees(polls[i])[port] == states[i]
  }

  /** Over any span in which a port stays managed and visible, the monitor reports exactly the changes
      of its state, in order; so replaying them from the first state gives the current one. */
  lemma {:induction false} ReportsAreTheChanges(start: map<string, string>, polls: seq<Poll>, port: string,
                                                states: seq<string>)
    requires port in start && SeenThroughout(polls, port, states)
    ensures Reports(start, polls, port) == Changes(start[port], states)
    ensures port in TableAfter(start, polls) && TableAfter(start, polls)[port] == Last(start[port], states)
    ensures Last(start[port], Reports(start, polls, port)) == TableAfter(start, polls)[port]
  {
    if polls != [] {
      var before, sofar := polls[..|polls| - 1], states[..|states| - 1];
      ReportsAreTheChanges(start, before, port, sofar);
      ChangesAppend(start[port], sofar, states[|states| - 1]);
      assert states == sofar + [states[|states| - 1]];
    }
    ChangesEndAtLast(start[port], states);
  }

  /** So whoever follows the events knows the carrier: after a span in which the port is visible, the last
      event for it says "on" exactly when its state is "up" now. */
  lemma LastEventIsCurrent(start: map<string, string>, polls: seq<Poll>, port: string, states: seq<string>,
                           managed: MonitoredPort, e: Event)
    requires port in start && SeenThroughout(polls, port, states)
    requires Reports(start, polls, port) != []
    requires Announces(e, managed, Last(start[port], Reports(start, polls, port)))
    ensures port in TableAfter(start, polls) && (e.carrierOn <==> TableAfter(start, polls)[port] == "up")
  {
    ReportsAreTheChanges(start, polls, port, states);
  }

  // ---- Histories with gaps ----

  /** The state in which the polls last saw the port, `first` when none did. */
  function LastSeen(first: string, polls: seq<Poll>, port: string): string {
    if polls == [] then first
    else if port in Sees(polls[|polls| - 1]) then Sees(polls[|polls| - 1])[port]
    else LastSeen(first, polls[..|polls| - 1], port)
  }

  /** Replaying the reports gives the state of the port, when it is visible. */
  ghost predicate ReplayIsRight(start: map<string, string>, polls: seq<Poll>, port: string)
    requires port in start
  {
    port in TableAfter(start, polls) ==>
      Last(start[port], Reports(start, polls, port)) == TableAfter(start, polls)[port]
  }

  /** With this poll the port is visible again, in another state than before the gap. */
  ghost predicate ReturnsChanged(start: map<string, string>, before: seq<Poll>, poll: Poll, port: string)
    requires port in start
  {
    && port in Sees(poll) && port !in TableAfter(start, before)
    && Sees(poll)[port] != LastSeen(start[port], before, port)
  }

  lemma OneMorePoll(start: map<string, string>, before: seq<Poll>, poll: Poll, port: string)
    requires port in start && Last(start[port], Reports(start, before, port)) == LastSeen(start[port], before, port)
    ensures var polls := before + [poll];
            && (ReplayIsRight(start, polls, port) <==> !ReturnsChanged(start, before, poll, port))
            && (!ReturnsChanged(start, before, poll, port) ==>
                  Last(start[port], Reports(start, polls, port)) == LastSeen(start[port], polls, port))
  {
    var polls := before + [poll];
    assert polls[..|polls| - 1] == before && polls[|polls| - 1] == poll;
  }

  /** The replay is right after each of the first `n` polls, and before them. */
  ghost predicate AlwaysRight(start: map<string, string>, polls: seq<Poll>, port: string, n: nat)
    requires port in start && n <= |polls|
  {
    forall k :: 0 <= k <= n ==> ReplayIsRight(start, polls[..k], port)
  }

  /** In none of the first `n` polls does the port return changed. */
  ghost predicate NeverReturnsChanged(start: map<string, string>, polls: seq<Poll>, port: string, n: nat)
    requires port in start && n <= |polls|
  {
    forall k :: 0 <= k < n ==> !ReturnsChanged(start, polls[..k], polls[k], port)
  }

  ghost predicate ReplaysLastSeen(start: map<string, string>, polls: seq<Poll>, port: string)
    requires port in start
  {
    Last(start[port], Reports(start, polls, port)) == LastSeen(start[port], polls, port)
  }

  lemma OneMoreIsRight(start: map<string, string>, polls: seq<Poll>, port: string, n: nat)
    requires port in start && n < |polls| && ReplaysLastSeen(start, polls[..n], port)
    ensures ReplayIsRight(start, polls[..n + 1], port) <==> !ReturnsChanged(start, polls[..n], polls[n], port)
    ensures !ReturnsChanged(start, polls[..n], polls[n], port) ==> ReplaysLastSeen(start, polls[..n + 1], port)
  {
    OneMorePoll(start, polls[..n], polls[n], port);
    assert polls[..n + 1] == polls[..n] + [polls[n]];
  }

  lemma {:induction false} ReplayUpTo(start: map<string, string>, polls: seq<Poll>, port: string, n: nat)
    requires port in start && n <= |polls|
    ensures AlwaysRight(start, polls, port, n) <==> NeverReturnsChanged(start, polls, port, n)
    ensures NeverReturnsChanged(start, polls, port, n) ==> ReplaysLastSeen(start, polls[..n], port)
  {
    if n == 0 {
      assert polls[..0] == [];
    } else {
      ReplayUpTo(start, polls, port, n - 1);
      if NeverReturnsChanged(start, polls, port, n - 1) { OneMoreIsRight(start, polls, port, n - 1); }
    }
  }

  /** Over any history, gaps included, replaying the reports gives the state of the port at every moment
      it is visible exactly when it never returns from a gap in another state. */
  lemma ReplayIsRightIff(start: map<string, string>, polls: seq<Poll>, port: string)
    requires port in start
    ensures AlwaysRight(start, polls, port, |polls|) <==> NeverReturnsChanged(start, polls, port, |polls|)
  {
    ReplayUpTo(start, polls, port, |polls|);
  }

  lemma {:induction false} NothingReportedInGap(start: map<string, string>, before: seq<Poll>, gap: seq<Poll>,
                                              port: string)
    requires forall i :: 0 <= i < |gap| ==> port !in Sees(gap[i])
    ensures Reports(start, before + gap, port) == Reports(start, before, port)
    ensures gap != [] ==> port !in TableAfter(start, before + gap)
  {
    if gap == [] {
      assert before + gap == before;
    } else {
      var shorter := gap[..|gap| - 1];
      NothingReportedInGap(start, before, shorter, port);
      assert (before + gap)[..|before + gap| - 1] == before + shorter;
      assert (before + gap)[|before + gap| - 1] == gap[|gap| - 1];
    }
  }

  /** Whatever happens across a failed query, or any gap in which the port is not managed or not listed,
      is never reported: neither in the gap nor on the return. */
  lemma GapHidesChange(start: map<string, string>, before: seq<Poll>, gap: seq<Poll>, poll: Poll, port: string)
    requires gap != [] && forall i :: 0 <= i < |gap| ==> port !in Sees(gap[i])
    ensures Reports(start, before + gap + [poll], port) == Reports(start, before, port)
  {
    NothingReportedInGap(start, before, gap, port);
    var polls := before + gap + [poll];
    assert polls[..|polls| - 1] == before + gap && polls[|polls| - 1] == poll;
  }

  lemma FailedQueryHidesChange(start: map<string, string>, port: string)
    requires port in start && start[port] == "up"
    ensures var polls := [Poll(map[], {port}), Poll(map[port := "down"], {port})];
            Reports(start, polls, port) == [] && TableAfter(start, polls) == map[port := "down"]
  {
    var failed, poll := Poll(map[], {port}), Poll(map[port := "down"], {port});
    GapHidesChange(start, [], [failed], poll, port);
    assert [failed, poll] == [] + [failed] + [poll];
  }
}
