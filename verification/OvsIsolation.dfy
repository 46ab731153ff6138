/** "The interface starts isolated": when a new port gets a VLAN that no other port is on. */
module OvsIsolation {
  import opened Wrappers
  import opened VlanPools
  import opened OvsProvision
  import opened OvsBookkeeping

  /** Every tag that a port carries is reserved, be it for another port. */
  ghost predicate TagsCovered(s: Manager) {
    forall k :: k in s.ports ==> s.ports[k].tag in s.vlans.tags.Values
  }

  ghost predicate Carried(s: Manager, tag: int) { exists k :: k in s.ports && s.ports[k].tag == tag }

  /** Only `key` reserves its tag, and another port is on it. */
  ghost predicate SoleHolder(s: Manager, key: Key) {
    && key in s.vlans.tags
    && (exists k :: k in s.ports && k != key && s.ports[k].tag == s.vlans.tags[key])
    && (forall k :: k in s.vlans.tags && k != key ==> s.vlans.tags[k] != s.vlans.tags[key])
  }

  lemma FullyReservedIsCovered(s: Manager)
    requires Book(s) && FullyReserved(s)
    ensures TagsCovered(s)
  {
    forall k | k in s.ports ensures s.ports[k].tag in s.vlans.tags.Values {
      assert k in s.vlans.tags;
    }
  }

  /** While carried tags are covered a new port starts alone on its VLAN, and carried tags stay covered. */
  lemma NewPortIsIsolated(s: Manager, key: Key, labId: string, nodeName: Option<string>, rc: ProvisionRc)
    requires Book(s) && TagsCovered(s)
    ensures var (s', tag) := Provision(s, key, labId, nodeName, rc);
            TagsCovered(s') && (key !in s.ports && tag.Some? ==> !Carried(s, tag.value))
  {
    var (s', tag) := Provision(s, key, labId, nodeName, rc);
    ProvisionContract(s, key, labId, nodeName, rc);
    if key !in s.ports && tag.Some? {
      NewPortSharesIff(s, key, labId, nodeName, rc);
    } else {
      assert s'.ports == s.ports && s'.vlans.tags == s.vlans.tags;
    }
  }

  /** Also when reservations without a port are about, as they may be after loading: a new port then shares
      a VLAN exactly when such a reservation waits for its key, with a tag that a port is on. */
  lemma NewPortSharesIff(s: Manager, key: Key, labId: string, nodeName: Option<string>, rc: ProvisionRc)
    requires VLAN_START <= s.vlans.next <= VLAN_END && TagsCovered(s) && key !in s.ports
    ensures var (s', tag) := Provision(s, key, labId, nodeName, rc);
            tag.Some? ==>
              TagsCovered(s') && (Carried(s, tag.value) <==> key in s.vlans.tags && Carried(s, s.vlans.tags[key]))
  {
    AllocateTagContract(s.vlans, key);
    var (s', tag) := Provision(s, key, labId, nodeName, rc);
    if tag.Some? {
      forall k | k in s'.ports ensures s'.ports[k].tag in s'.vlans.tags.Values {
        if k == key {
          assert k in s'.vlans.tags;
        } else {
          var h :| h in s.vlans.tags && s.vlans.tags[h] == s.ports[k].tag;
          assert h in s'.vlans.tags && s'.vlans.tags[h] == s.ports[k].tag;
        }
      }
    }
  }

  /** The port is on a tag of the allocator's range that nobody has reserved. */
  ghost predicate Uncovered(s: Manager, k: Key) {
    k in s.ports && VLAN_START <= s.ports[k].tag <= VLAN_END && s.ports[k].tag !in s.vlans.tags.Values
  }

  /** The cursor alone may find a carried tag: a new key is safe from every cursor exactly while each
      carried tag of the allocator's range is reserved. */
  lemma IsolatedFromEveryCursorIff(s: Manager, key: Key)
    requires Book(s) && key !in s.ports
    ensures (forall next :: VLAN_START <= next <= VLAN_END ==> !AllocatesCarried(s, key, next))
            <==> forall k :: !Uncovered(s, k)
  {
    forall next | VLAN_START <= next <= VLAN_END && AllocatesCarried(s, key, next)
      ensures exists k :: Uncovered(s, k)
    {
      AllocateTagContract(Allocator(s.vlans.tags, next), key);
      var k :| k in s.ports && s.ports[k].tag == AllocateTag(Allocator(s.vlans.tags, next), key).1.value;
      assert Uncovered(s, k);
    }
    forall k | Uncovered(s, k) ensures AllocatesCarried(s, key, s.ports[k].tag) {
      assert AllocateTag(Allocator(s.vlans.tags, s.ports[k].tag), key).1 == Some(s.ports[k].tag);
    }
  }

  /** From the cursor `next` the allocator gives `key` a tag that a port is on. */
  ghost predicate AllocatesCarried(s: Manager, key: Key, next: int) {
    var tag := AllocateTag(Allocator(s.vlans.tags, next), key).1;
    tag.Some? && Carried(s, tag.value)
  }

  /** Forgetting a port keeps the tags covered exactly unless it was the only one to reserve a tag that
      another port is on. */
  lemma ForgetKeepsCoverIff(s: Manager, key: Key)
    requires Book(s) && TagsCovered(s)
    ensures TagsCovered(Forget(s, key)) <==> !SoleHolder(s, key)
  {
    var s' := Forget(s, key);
    if SoleHolder(s, key) {
      var k :| k in s.ports && k != key && s.ports[k].tag == s.vlans.tags[key];
      assert k in s'.ports && s'.ports[k].tag !in s'.vlans.tags.Values;
    } else {
      forall k | k in s'.ports ensures s'.ports[k].tag in s'.vlans.tags.Values {
        OtherHolder(s, key, k);
      }
    }
  }

  lemma OtherHolder(s: Manager, key: Key, k: Key)
    requires TagsCovered(s) && !SoleHolder(s, key) && k in s.ports && k != key
    ensures s.ports[k].tag in (s.vlans.tags - {key}).Values
  {
    var h :| h in s.vlans.tags && s.vlans.tags[h] == s.ports[k].tag;
    if h == key {
      var g :| g in s.vlans.tags && g != key && s.vlans.tags[g] == s.vlans.tags[key];
      assert g in s.vlans.tags - {key};
    } else {
      assert h in s.vlans.tags - {key};
    }
  }

  /** hot_connect gives up the reservation of its second end. */
  ghost predicate GivesUp(s: Manager, a: Key, b: Key, labId: string, setOk: bool) {
    HotConnect(s, a, b, labId, setOk).1.Some? && s.ports[a].tag != s.ports[b].tag
  }

  lemma ConnectKeepsCoverIff(s: Manager, a: Key, b: Key, labId: string, setOk: bool)
    requires Book(s) && TagsCovered(s)
    ensures TagsCovered(HotConnect(s, a, b, labId, setOk).0) <==> !(GivesUp(s, a, b, labId, setOk) && SoleHolder(s, b))
  {
    var s' := HotConnect(s, a, b, labId, setOk).0;
    if GivesUp(s, a, b, labId, setOk) {
      if SoleHolder(s, b) {
        var k :| k in s.ports && k != b && s.ports[k].tag == s.vlans.tags[b];
        assert k in s'.ports && s'.ports[k].tag !in s'.vlans.tags.Values;
      } else {
        forall k | k in s'.ports ensures s'.ports[k].tag in s'.vlans.tags.Values {
          OtherHolder(s, b, if k == b then a else k);
        }
      }
    } else {
      assert s'.ports == s.ports && s'.vlans == s.vlans;
    }
  }

  // ---- Runs ----

  /** The step frees a tag that a port stays on. */
  ghost predicate FreesCarried(s: Manager, op: Op) {
    match op
    case OpProvision(_, _, _, _) => false
    case OpDelete(key, _) => key in s.ports && SoleHolder(s, key)
    case OpCleanup(key, _) => key in s.ports && SoleHolder(s, key)
    case OpConnect(a, b, labId, ok) => GivesUp(s, a, b, labId, ok) && SoleHolder(s, b)
  }

  lemma StepKeepsCoverIff(s: Manager, op: Op)
    requires Book(s) && TagsCovered(s)
    ensures TagsCovered(Step(s, op)) <==> !FreesCarried(s, op)
  {
    match op
    case OpProvision(key, labId, nodeName, rc) => NewPortIsIsolated(s, key, labId, nodeName, rc);
    case OpDelete(key, ok) => DeleteKeepsCoverIff(s, key, ok);
    case OpCleanup(key, ok) => DeleteKeepsCoverIff(s, key, ok);
    case OpConnect(a, b, labId, ok) => ConnectKeepsCoverIff(s, a, b, labId, ok);
  }

  /** Deletion, and stale cleanup, which does the same to the tables. */
  lemma DeleteKeepsCoverIff(s: Manager, key: Key, ok: bool)
    requires Book(s) && TagsCovered(s)
    ensures TagsCovered(Delete(s, key, ok).0) <==> !(key in s.ports && SoleHolder(s, key))
    ensures key in s.ports ==> CleanupStale(s, key, s.ports[key].portName, ok) == Delete(s, key, ok).0
  {
    if key in s.ports {
      var s0 := s.(bridge := DelPort(s.bridge, s.ports[key].portName, ok));
      ForgetKeepsCoverIff(s0, key);
      assert SoleHolder(s0, key) <==> SoleHolder(s, key);
    }
  }

  ghost predicate AlwaysCovered(s: Manager, ops: seq<Op>)
    decreases |ops|
  {
    TagsCovered(s) && (ops == [] || AlwaysCovered(Step(s, ops[0]), ops[1..]))
  }

  ghost predicate NeverFreesCarried(s: Manager, ops: seq<Op>)
    decreases |ops|
  {
    ops == [] || (!FreesCarried(s, ops[0]) && NeverFreesCarried(Step(s, ops[0]), ops[1..]))
  }

  /** Every port that the run adds gets a tag on which no port is at that time. */
  ghost predicate AllStartIsolated(s: Manager, ops: seq<Op>)
    decreases |ops|
  {
    ops == [] || (StartsIsolated(s, ops[0]) && AllStartIsolated(Step(s, ops[0]), ops[1..]))
  }

  ghost predicate StartsIsolated(s: Manager, op: Op) {
    op.OpProvision? && op.key !in s.ports && Provision(s, op.key, op.labId, op.nodeName, op.rc).1.Some? ==>
      !Carried(s, Provision(s, op.key, op.labId, op.nodeName, op.rc).1.value)
  }

  /** Over a whole run: all carried tags stay reserved exactly while no step frees one, and then every
      new port of the run starts alone on its VLAN. */
  lemma {:induction false} RunIsolatesIff(s: Manager, ops: seq<Op>)
    requires Book(s) && TagsCovered(s)
    ensures AlwaysCovered(s, ops) <==> NeverFreesCarried(s, ops)
    ensures NeverFreesCarried(s, ops) ==> AllStartIsolated(s, ops)
    decreases |ops|
  {
    if ops != [] {
      StepKeepsBook(s, ops[0]);
      StepKeepsCoverIff(s, ops[0]);
      StepIsolates(s, ops[0]);
      if TagsCovered(Step(s, ops[0])) { RunIsolatesIff(Step(s, ops[0]), ops[1..]); }
    }
  }

  lemma StepIsolates(s: Manager, op: Op)
    requires Book(s) && TagsCovered(s)
    ensures StartsIsolated(s, op)
  {
    if op.OpProvision? { NewPortIsIsolated(s, op.key, op.labId, op.nodeName, op.rc); }
  }
}
